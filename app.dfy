/**
 * The application's session: the view state machine, the selections, the
 * input buffer, the current result, and the history and favorites lists.
 *
 * The asynchronous submit handler is split in two steps: `Submit` runs the
 * part before the analysis call is awaited and records what the handler
 * captured; `Complete` runs the part after the call settles. Completions
 * are applied whatever the session has done in between.
 */
module App {
  import opened Types
  import JsText
  import G = GeminiService

  // ---------------------------------------------------------------------
  // Deciding what a submission does

  /** What a submission does, decided before any state changes. */
  datatype Action = Ignore | ToggleCurrentFavorite | ShowPhone | GoHome | Analyze(term: string)

  /** The commands that open the phone overlay, in lower case. */
  const PhoneCommands: seq<string> := ["history", "my favorites", "favorites"]

  /** The commands that reset the session, in lower case. */
  const HomeCommands: seq<string> := ["menu", "home"]

  /** The command that toggles the current result's favorite mark. */
  const FavCommand: string := "fav"

  /**
   * The term a submission works on: the explicit argument when it is a
   * non-empty string, otherwise the trimmed input buffer. The argument
   * itself is not trimmed.
   */
  function ChosenTerm(arg: Option<string>, input: string): (r: string)
    ensures arg.Some? && arg.value != "" ==> r == arg.value
    ensures r == "" <==>
      (arg.None? || arg.value == "") && forall i :: 0 <= i < |input| ==> JsText.IsTrimmable(input[i])
  {
    if arg.Some? && arg.value != "" then arg.value else JsText.Trim(input)
  }

  /**
   * The submit handler's decision. `ready` says that a language and a
   * category are selected; `hasResult` that there is a current result.
   * Commands are recognised by comparing the whole lower-cased term.
   */
  function Classify(term: string, ready: bool, hasResult: bool): (a: Action)
    ensures a == Ignore <==> term == "" || !ready
    ensures a == ToggleCurrentFavorite ==> hasResult
    ensures a.Analyze? ==> a.term == term
  {
    if term == "" || !ready then Ignore
    else
      var lower := JsText.ToLower(term);
      if lower == FavCommand && hasResult then ToggleCurrentFavorite
      else if lower in PhoneCommands then ShowPhone
      else if lower in HomeCommands then GoHome
      else Analyze(term)
  }

  /** `term` spells the lower-case word `w`, letter case aside. */
  predicate SpellsIgnoringCase(term: string, w: string)
  {
    |term| == |w| && forall i :: 0 <= i < |term| ==> JsText.FoldsTo(term[i], w[i])
  }

  lemma CommandsAreLowerWords()
    ensures JsText.IsLowerWord(FavCommand)
    ensures forall w :: w in PhoneCommands ==> JsText.IsLowerWord(w)
    ensures forall w :: w in HomeCommands ==> JsText.IsLowerWord(w)
  {
  }

  /**
   * The decision in terms of the term itself: nothing happens without a
   * term, a language and a category; otherwise a term that spells a command
   * in any letter case (and nothing longer or shorter) is that command,
   * "fav" only while there is a current result, and every other term is
   * sent for analysis unchanged.
   */
  lemma ClassifyMeaning(term: string, ready: bool, hasResult: bool)
    ensures Classify(term, ready, hasResult) == Ignore <==> term == "" || !ready
    ensures Classify(term, ready, hasResult) == ToggleCurrentFavorite <==>
      term != "" && ready && hasResult && SpellsIgnoringCase(term, FavCommand)
    ensures Classify(term, ready, hasResult) == ShowPhone <==>
      term != "" && ready && exists w :: w in PhoneCommands && SpellsIgnoringCase(term, w)
    ensures Classify(term, ready, hasResult) == GoHome <==>
      term != "" && ready && exists w :: w in HomeCommands && SpellsIgnoringCase(term, w)
    ensures Classify(term, ready, hasResult).Analyze? ==>
      Classify(term, ready, hasResult).term == term && term != "" && ready
      && !(hasResult && SpellsIgnoringCase(term, FavCommand))
      && (forall w :: w in PhoneCommands + HomeCommands ==> !SpellsIgnoringCase(term, w))
  {
    CommandsAreLowerWords();
    var lower := JsText.ToLower(term);
    JsText.LowerEquals(term, FavCommand);
    forall w | w in PhoneCommands + HomeCommands
      ensures lower == w <==> SpellsIgnoringCase(term, w)
    {
      JsText.LowerEquals(term, w);
    }
  }

  /** "fav" with no current result is not a command: it is analysed as a word, in the case typed. */
  lemma FavWithoutResultIsAnalysed(term: string)
    requires SpellsIgnoringCase(term, FavCommand)
    ensures Classify(term, true, false) == Analyze(term)
  {
    CommandsAreLowerWords();
    JsText.LowerEquals(term, FavCommand);
    assert JsText.ToLower(term) == "fav";
  }

  /**
   * A term picked from the phone overlay is used as it is: " menu" picked
   * there is analysed, not taken for the reset command.
   */
  lemma ArgumentIsNotTrimmed()
    ensures Classify(ChosenTerm(Some(" menu"), ""), true, false) == Analyze(" menu")
  {
    assert |JsText.ToLower(" menu")| == 5;
  }

  /** A typed term is trimmed first: " menu " typed into the input resets the session. */
  lemma InputIsTrimmed()
    ensures Classify(ChosenTerm(None, " menu "), true, false) == GoHome
  {
    var s := " menu ";
    assert JsText.Trim(s) == "menu" by {
      assert JsText.TrimStartIndex(s, 0) == 1;
      assert JsText.TrimEndIndex(s, 1, 6) == 5;
    }
    assert JsText.ToLower("menu") == HomeCommands[0] by {
      JsText.LowerEquals("menu", "menu");
    }
  }

  // ---------------------------------------------------------------------
  // The favorites list

  /** `list.filter(x => x !== w)`. */
  function Without(l: seq<string>, w: string): (r: seq<string>)
    ensures forall x :: x in r <==> x in l && x != w
    ensures |r| <= |l|
  {
    if l == [] then []
    else (if l[0] == w then [] else [l[0]]) + Without(l[1..], w)
  }

  /** No entry appears twice. */
  predicate NoDup(l: seq<string>)
  {
    forall i, j :: 0 <= i < j < |l| ==> l[i] != l[j]
  }

  /** Filtering out an absent word leaves the list as it was. */
  lemma {:induction false} WithoutAbsent(l: seq<string>, w: string)
    requires w !in l
    ensures Without(l, w) == l
  {
    if l != [] {
      WithoutAbsent(l[1..], w);
    }
  }

  /** In a list without duplicates, filtering out an entry removes just that position. */
  lemma {:induction false} WithoutAt(l: seq<string>, i: nat)
    requires NoDup(l) && i < |l|
    ensures Without(l, l[i]) == l[..i] + l[i + 1..]
  {
    if i == 0 {
      assert l[0] !in l[1..];
      WithoutAbsent(l[1..], l[0]);
    } else {
      assert NoDup(l[1..]);
      assert l[1..][i - 1] == l[i];
      WithoutAt(l[1..], i - 1);
      assert l[1..][..i - 1] + l[1..][i..] == l[1..i] + l[i + 1..];
      assert l[..i] == [l[0]] + l[1..i];
    }
  }

  /** The favorite toggle: remove the word if it is there, otherwise append it. */
  function Toggled(l: seq<string>, w: string): seq<string>
  {
    if w in l then Without(l, w) else l + [w]
  }

  /** Toggling flips the word's membership and nothing else's. */
  lemma ToggleMembership(l: seq<string>, w: string)
    ensures w in Toggled(l, w) <==> w !in l
    ensures forall x :: x != w ==> (x in Toggled(l, w) <==> x in l)
  {
  }

  /**
   * Toggling keeps the other entries in order: an absent word goes to the
   * end, a present one is taken out of its place; and it never introduces
   * a duplicate.
   */
  lemma ToggleFacts(l: seq<string>, w: string)
    requires NoDup(l)
    ensures w !in l ==> Toggled(l, w) == l + [w]
    ensures forall i :: 0 <= i < |l| && l[i] == w ==> Toggled(l, w) == l[..i] + l[i + 1..]
    ensures NoDup(Toggled(l, w))
  {
    forall i | 0 <= i < |l| && l[i] == w ensures Toggled(l, w) == l[..i] + l[i + 1..] {
      WithoutAt(l, i);
    }
    if w in l {
      var i :| 0 <= i < |l| && l[i] == w;
      RemoveAtNoDup(l, i);
    }
  }

  lemma RemoveAtNoDup(l: seq<string>, i: nat)
    requires NoDup(l) && i < |l|
    ensures NoDup(l[..i] + l[i + 1..])
  {
    var r := l[..i] + l[i + 1..];
    forall a, b | 0 <= a < b < |r| ensures r[a] != r[b] {
      var a', b' := if a < i then a else a + 1, if b < i then b else b + 1;
      assert r[a] == l[a'] && r[b] == l[b'];
    }
  }

  /** Filtering a list with one more entry at the end filters the list, then that entry. */
  lemma {:induction false} WithoutSnoc(l: seq<string>, x: string, w: string)
    ensures Without(l + [x], w) == Without(l, w) + (if x == w then [] else [x])
  {
    if l == [] {
      assert [x][1..] == [];
    } else {
      assert (l + [x])[1..] == l[1..] + [x];
      WithoutSnoc(l[1..], x, w);
    }
  }

  /**
   * Toggling twice: an absent word leaves any list exactly as it was; in a
   * list without duplicates, a present word ends up moved to the end.
   */
  lemma ToggleTwice(l: seq<string>, w: string)
    ensures w !in l ==> Toggled(Toggled(l, w), w) == l
    ensures NoDup(l) ==>
      forall i :: 0 <= i < |l| && l[i] == w ==> Toggled(Toggled(l, w), w) == l[..i] + l[i + 1..] + [w]
  {
    if w !in l {
      WithoutSnoc(l, w, w);
      WithoutAbsent(l, w);
    }
    if NoDup(l) {
      forall i | 0 <= i < |l| && l[i] == w ensures Toggled(Toggled(l, w), w) == l[..i] + l[i + 1..] + [w] {
        ToggleFacts(l, w);
      }
    }
  }

  // ---------------------------------------------------------------------
  // The input placeholder

  /** The input's placeholder, by the selected language and category. */
  function GetPlaceholder(lang: Option<Language>, cat: Option<Category>): (r: string)
    ensures |r| >= 16
    ensures r[0] == 'N' <==> lang == Some(Vietnamese)
  {
    if lang == Some(Vietnamese) then
      match cat
      case Some(WordFormation) => "Nhập từ (VD: Heart, Just)..."
      case Some(IdiomsPhrasal) => "Nhập từ (VD: Get, Blue)..."
      case Some(Grammar) => "Nhập chủ điểm (VD: Đảo ngữ)..."
      case Some(Challenge) => "Nhập câu cần nâng cấp (C2)..."
      case None => "Nhập nội dung..."
    else
      match cat
      case Some(WordFormation) => "Enter word (e.g., Heart, Just)..."
      case Some(IdiomsPhrasal) => "Enter word (e.g., Get, Blue)..."
      case Some(Grammar) => "Enter topic (e.g., Inversion)..."
      case Some(Challenge) => "Enter sentence to upgrade..."
      case None => "Enter content..."
  }

  /**
   * The placeholder tells the category apart and whether Vietnamese is
   * selected: no language reads as English.
   */
  lemma PlaceholderDistinguishes(l1: Option<Language>, c1: Option<Category>, l2: Option<Language>, c2: Option<Category>)
    ensures GetPlaceholder(l1, c1) == GetPlaceholder(l2, c2) <==>
      c1 == c2 && (l1 == Some(Vietnamese) <==> l2 == Some(Vietnamese))
  {
    var p1, p2 := GetPlaceholder(l1, c1), GetPlaceholder(l2, c2);
    if p1 == p2 {
      assert p1[0] == p2[0];
      PlaceholderCategory(l1, c1, l2, c2);
    }
  }

  /** Within one language, the placeholders of different categories differ. */
  lemma PlaceholderCategory(l1: Option<Language>, c1: Option<Category>, l2: Option<Language>, c2: Option<Category>)
    requires l1 == Some(Vietnamese) <==> l2 == Some(Vietnamese)
    requires GetPlaceholder(l1, c1) == GetPlaceholder(l2, c2)
    ensures c1 == c2
  {
    var p1, p2 := GetPlaceholder(l1, c1), GetPlaceholder(l2, c2);
    if l1 == Some(Vietnamese) {
      assert p1[5] == p2[5] && |p1| == |p2|;
    } else {
      assert |p1| == |p2|;
    }
  }

  // ---------------------------------------------------------------------
  // The session

  /** A submission waiting for its analysis call: the term and the selections the handler captured. */
  datatype Pending = Pending(term: string, language: Language, category: Category)

  /** The whole session state as one value. */
  datatype State = State(
    viewMode: ViewMode,
    selectedLang: Option<Language>,
    selectedCategory: Option<Category>,
    inputText: string,
    currentData: Option<WordAnalysis>,
    isLoading: bool,
    history: seq<HistoryEntry>,
    favorites: seq<string>,
    isPhoneOpen: bool,
    inFlight: seq<Pending>)

  /**
   * What every reachable state satisfies: favorites hold no duplicate; a
   * screen that needs a selection has it; the result screen has a result;
   * the loading screen has a call outstanding and the loading flag set;
   * every outstanding call has a non-empty term.
   */
  predicate Consistent(s: State)
  {
    NoDup(s.favorites)
    && (s.viewMode == CatSelect ==> s.selectedLang.Some?)
    && (s.viewMode == WordInput ==> s.selectedLang.Some? && s.selectedCategory.Some?)
    && (s.viewMode == Analysis ==> s.currentData.Some?)
    && (s.viewMode == Loading ==> s.isLoading && s.inFlight != [])
    && (forall p :: p in s.inFlight ==> p.term != "")
  }

  /** What the submit handler decides in state `st` for the optional argument `arg`. */
  function Decide(st: State, arg: Option<string>): Action
  {
    Classify(ChosenTerm(arg, st.inputText),
             st.selectedLang.Some? && st.selectedCategory.Some?, st.currentData.Some?)
  }

  /** The reset: no selections, no input, no current result, first screen. */
  function Reset(st: State): State
  {
    st.(selectedLang := None, selectedCategory := None, inputText := "", currentData := None,
        viewMode := LangSelect)
  }

  /** The decided action can be carried out: a toggle has a result, an analysis has both selections. */
  predicate Applicable(st: State, action: Action)
  {
    (action == ToggleCurrentFavorite ==> st.currentData.Some?)
    && (action.Analyze? ==> st.selectedLang.Some? && st.selectedCategory.Some?)
  }

  /**
   * The effect of an action: a toggle updates the favorites and clears the
   * input, the overlay command opens the overlay and clears the input, the
   * reset command resets, and an analysis shows the loading screen and adds
   * an outstanding call carrying the term and the current selections.
   */
  function Effect(st: State, action: Action): State
    requires Applicable(st, action)
  {
    match action
    case Ignore => st
    case ToggleCurrentFavorite =>
      st.(favorites := Toggled(st.favorites, st.currentData.value.word), inputText := "")
    case ShowPhone => st.(isPhoneOpen := true, inputText := "")
    case GoHome => Reset(st)
    case Analyze(t) =>
      st.(isLoading := true, viewMode := Loading,
          inFlight := st.inFlight + [Pending(t, st.selectedLang.value, st.selectedCategory.value)])
  }

  /** The state once the submit handler has run up to the awaited call. */
  function AfterSubmit(st: State, arg: Option<string>): State
  {
    Effect(st, Decide(st, arg))
  }

  /**
   * The state once outstanding call `k` has settled with `outcome` at time
   * `now`: on success the payload becomes the current result, the history
   * gains the payload's word with the category captured at submission, the
   * input is cleared and the result screen shown; on failure only the
   * error screen is shown. The loading flag drops either way.
   */
  function AfterComplete(st: State, k: nat, outcome: G.Outcome, now: int): State
    requires k < |st.inFlight|
  {
    var rest := st.inFlight[..k] + st.inFlight[k + 1..];
    match outcome
    case Returned(data) =>
      st.(currentData := Some(data),
          history := st.history + [HistoryEntry(data.word, st.inFlight[k].category, now)],
          viewMode := Analysis, inputText := "", isLoading := false, inFlight := rest)
    case Raised(_) =>
      st.(viewMode := Error, isLoading := false, inFlight := rest)
  }

  /**
   * A submission never touches the history; it adds an outstanding call
   * exactly when it analyses, and it changes nothing at all when the term
   * is empty or a selection is missing.
   */
  lemma SubmitFacts(st: State, arg: Option<string>)
    ensures AfterSubmit(st, arg).history == st.history
    ensures |AfterSubmit(st, arg).inFlight| == |st.inFlight| + (if Decide(st, arg).Analyze? then 1 else 0)
    ensures ChosenTerm(arg, st.inputText) == "" || st.selectedLang.None? || st.selectedCategory.None? ==>
      AfterSubmit(st, arg) == st
    ensures Decide(st, arg).Analyze? ==>
      AfterSubmit(st, arg).viewMode == Loading && AfterSubmit(st, arg).isLoading
  {
  }

  /**
   * A completion ends on exactly one of the result and error screens with
   * the loading flag down, and grows the history by one entry exactly when
   * it succeeded.
   */
  lemma CompleteFacts(st: State, k: nat, outcome: G.Outcome, now: int)
    requires k < |st.inFlight|
    ensures var st' := AfterComplete(st, k, outcome, now);
      (st'.viewMode == Analysis <==> outcome.Returned?) && (st'.viewMode == Error <==> outcome.Raised?)
      && !st'.isLoading
      && |st'.history| == |st.history| + (if outcome.Returned? then 1 else 0)
      && st'.history[..|st.history|] == st.history
      && |st'.inFlight| == |st.inFlight| - 1
  {
  }

  /** A submission keeps the session consistent. */
  lemma SubmitKeepsConsistent(st: State, arg: Option<string>)
    requires Consistent(st)
    ensures Consistent(AfterSubmit(st, arg))
  {
    var action := Decide(st, arg);
    if action == ToggleCurrentFavorite {
      ToggleFacts(st.favorites, st.currentData.value.word);
    } else if action.Analyze? {
      ClassifyMeaning(ChosenTerm(arg, st.inputText), st.selectedLang.Some? && st.selectedCategory.Some?,
                      st.currentData.Some?);
    }
  }

  /** A completion keeps the session consistent. */
  lemma CompleteKeepsConsistent(st: State, k: nat, outcome: G.Outcome, now: int)
    requires Consistent(st) && k < |st.inFlight|
    ensures Consistent(AfterComplete(st, k, outcome, now))
  {
    var rest := st.inFlight[..k] + st.inFlight[k + 1..];
    assert forall p :: p in rest ==> p in st.inFlight;
  }

  class Session {
    var viewMode: ViewMode
    var selectedLang: Option<Language>
    var selectedCategory: Option<Category>
    var inputText: string
    var currentData: Option<WordAnalysis>
    var isLoading: bool
    var history: seq<HistoryEntry>
    var favorites: seq<string>
    var isPhoneOpen: bool
    var inFlight: seq<Pending>
    /** The number of analysis calls that have completed successfully. */
    ghost var successes: nat

    ghost function Model(): State
      reads this
    {
      State(viewMode, selectedLang, selectedCategory, inputText, currentData, isLoading,
            history, favorites, isPhoneOpen, inFlight)
    }

    /** The session invariant; the history holds one entry per successful completion. */
    ghost predicate Valid()
      reads this
    {
      Consistent(Model()) && |history| == successes
    }

    constructor ()
      ensures Valid()
      ensures Model() == State(LangSelect, None, None, "", None, false, [], [], false, [])
      ensures successes == 0
    {
      viewMode := LangSelect;
      selectedLang := None;
      selectedCategory := None;
      inputText := "";
      currentData := None;
      isLoading := false;
      history := [];
      favorites := [];
      isPhoneOpen := false;
      inFlight := [];
      successes := 0;
    }

    /** A language button on the first screen: select it and move on to the categories. */
    method SelectLanguage(lang: Language)
      requires Valid() && viewMode == LangSelect
      modifies this
      ensures Valid() && successes == old(successes)
      ensures Model() == old(Model()).(selectedLang := Some(lang), viewMode := CatSelect)
    {
      selectedLang := Some(lang);
      viewMode := CatSelect;
    }

    /** A category button: select it and move on to the input screen. */
    method SelectCategory(cat: Category)
      requires Valid() && viewMode == CatSelect
      modifies this
      ensures Valid() && successes == old(successes)
      ensures Model() == old(Model()).(selectedCategory := Some(cat), viewMode := WordInput)
    {
      selectedCategory := Some(cat);
      viewMode := WordInput;
    }

    /** The Back button on the category screen: only the screen changes; the language stays selected. */
    method BackToLanguages()
      requires Valid() && viewMode == CatSelect
      modifies this
      ensures Valid() && successes == old(successes)
      ensures Model() == old(Model()).(viewMode := LangSelect)
    {
      viewMode := LangSelect;
    }

    /** The Back button on the input screen: only the screen changes; both selections stay. */
    method BackToCategories()
      requires Valid() && viewMode == WordInput
      modifies this
      ensures Valid() && successes == old(successes)
      ensures Model() == old(Model()).(viewMode := CatSelect)
    {
      viewMode := CatSelect;
    }

    /** Typing into the input field of the input or result screen. */
    method SetInput(text: string)
      requires Valid() && (viewMode == WordInput || viewMode == Analysis)
      modifies this
      ensures Valid() && successes == old(successes)
      ensures Model() == old(Model()).(inputText := text)
    {
      inputText := text;
    }

    /** The phone button, shown on every screen. */
    method OpenPhone()
      requires Valid()
      modifies this
      ensures Valid() && successes == old(successes)
      ensures Model() == old(Model()).(isPhoneOpen := true)
    {
      isPhoneOpen := true;
    }

    /** The overlay's close button. */
    method ClosePhone()
      requires Valid()
      modifies this
      ensures Valid() && successes == old(successes)
      ensures Model() == old(Model()).(isPhoneOpen := false)
    {
      isPhoneOpen := false;
    }

    /**
     * Appends one entry, stamped with the given time, to the history log.
     * Only a successful completion calls it; that completion records the
     * success.
     */
    method AddToHistory(word: string, category: Category, now: int)
      modifies this
      ensures successes == old(successes)
      ensures Model() == old(Model()).(history := old(history) + [HistoryEntry(word, category, now)])
    {
      history := history + [HistoryEntry(word, category, now)];
    }

    /** The favorite toggle (the star button on the result screen, and the "fav" command). */
    method ToggleFavorite(word: string)
      requires Valid()
      modifies this
      ensures Valid() && successes == old(successes)
      ensures Model() == old(Model()).(favorites := Toggled(old(favorites), word))
      ensures word in favorites <==> word !in old(favorites)
    {
      ToggleFacts(favorites, word);
      ToggleMembership(favorites, word);
      favorites := Toggled(favorites, word);
    }

    /**
     * Back to the first screen: clears both selections, the input and the
     * current result; history, favorites, the overlay and the outstanding
     * calls are left alone.
     */
    method ResetToStart()
      requires Valid()
      modifies this
      ensures Valid() && successes == old(successes)
      ensures Model() == Reset(old(Model()))
    {
      selectedLang := None;
      selectedCategory := None;
      inputText := "";
      currentData := None;
      viewMode := LangSelect;
    }

    /**
     * The submit handler up to the point where it awaits the analysis call.
     * `arg` is the term passed by the phone overlay, absent when the input
     * field submits. The returned action is what the handler decided; an
     * analysis records the term and both selections as they were at
     * submission.
     */
    method Submit(arg: Option<string>) returns (action: Action)
      requires Valid()
      modifies this
      ensures Valid() && successes == old(successes)
      ensures action == Decide(old(Model()), arg)
      ensures Model() == AfterSubmit(old(Model()), arg)
    {
      SubmitKeepsConsistent(Model(), arg);
      var term := ChosenTerm(arg, inputText);
      action := Classify(term, selectedLang.Some? && selectedCategory.Some?, currentData.Some?);
      Perform(action);
    }

    /** Carries out a decided action on the session. */
    method Perform(action: Action)
      requires Valid() && Applicable(Model(), action) && Consistent(Effect(Model(), action))
      modifies this
      ensures Valid() && successes == old(successes)
      ensures Model() == Effect(old(Model()), action)
    {
      match action {
        case Ignore =>
        case ToggleCurrentFavorite =>
          ToggleFavorite(currentData.value.word);
          inputText := "";
        case ShowPhone =>
          isPhoneOpen := true;
          inputText := "";
        case GoHome =>
          ResetToStart();
        case Analyze(t) =>
          isLoading := true;
          viewMode := Loading;
          inFlight := inFlight + [Pending(t, selectedLang.value, selectedCategory.value)];
      }
    }

    /**
     * An outstanding analysis call settles. On success the payload becomes
     * the current result, one history entry (the payload's word, the
     * category captured at submission) is appended, the input is cleared
     * and the result screen shown; on failure only the error screen is
     * shown. Either way the loading flag drops. No check is made that the
     * session is still waiting for this call.
     */
    method Complete(k: nat, outcome: G.Outcome, now: int)
      requires Valid() && k < |inFlight|
      modifies this
      ensures Valid()
      ensures successes == old(successes) + (if outcome.Returned? then 1 else 0)
      ensures Model() == AfterComplete(old(Model()), k, outcome, now)
    {
      CompleteKeepsConsistent(Model(), k, outcome, now);
      var pending := inFlight[k];
      inFlight := inFlight[..k] + inFlight[k + 1..];
      match outcome {
        case Returned(data) =>
          currentData := Some(data);
          viewMode := Analysis;
          inputText := "";
          successes := successes + 1;
          AddToHistory(data.word, pending.category, now);
        case Raised(_) =>
          viewMode := Error;
      }
      isLoading := false;
    }

    /**
     * The whole awaited part of the submit handler for outstanding call `k`:
     * the analysis client runs on the captured term and selections, and its
     * outcome completes the call: the result screen when the client
     * returned, the error screen when it threw. The client's promises carry
     * over: the retry happens exactly on a transport error, and a result
     * from the first service call carries the category selected at
     * submission, whatever the service echoed.
     */
    method Settle(k: nat, primary: G.Response, retry: G.Response, parse: string -> G.ParseResult, now: int)
      returns (outcome: G.Outcome, calls: seq<G.Request>)
      requires Valid() && k < |inFlight|
      modifies this
      ensures Valid()
      ensures Model() == AfterComplete(old(Model()), k, outcome, now)
      ensures var p := old(inFlight[k]);
        1 <= |calls| <= 2 && calls[0] == G.PrimaryRequest(p.term, p.language, p.category)
        && (|calls| == 2 ==> calls[1] == G.RetryRequest(p.term, p.language, p.category))
      ensures G.PrimarySucceeds(primary, parse) ==>
        |calls| == 1 && viewMode == Analysis
        && currentData.value.word == parse(primary.text).value.word
        && currentData.value.category == CategoryName(old(inFlight[k]).category)
      ensures !G.PrimarySucceeds(primary, parse) ==>
        (|calls| == 2 <==> G.Retryable(G.Caught(primary, parse)))
      ensures !G.PrimarySucceeds(primary, parse) && |calls| == 1 ==>
        outcome == G.Raised(G.Caught(primary, parse)) && viewMode == Error
      ensures |calls| == 2 ==>
        match retry
        case Throws(t) => outcome == G.Raised(t)
        case _ =>
          if !G.HasText(retry) then outcome == G.Raised(G.Caught(primary, parse))
          else match parse(retry.text)
            case Parsed(d) => outcome == G.Returned(d)
            case SyntaxError(m) => outcome == G.Raised(G.ErrorObject(m))
    {
      var p := inFlight[k];
      outcome, calls := G.AnalyzeWord(p.term, p.language, p.category, primary, retry, parse);
      Complete(k, outcome, now);
    }

    /** Picking an entry in the open overlay: submit it as a term, then close the overlay. */
    method SelectFromPhone(word: string) returns (action: Action)
      requires Valid() && isPhoneOpen
      modifies this
      ensures Valid() && successes == old(successes)
      ensures action == Decide(old(Model()), Some(word))
      ensures Model() == AfterSubmit(old(Model()), Some(word)).(isPhoneOpen := false)
    {
      action := Submit(Some(word));
      isPhoneOpen := false;
    }
  }
}
