/** The value types shared by the session and the analysis client. */
module Types {

  datatype Option<+T> = None | Some(value: T)

  /** The two interface languages; the source's enum values are their names. */
  datatype Language = English | Vietnamese

  /** The four analysis modes. */
  datatype Category = WordFormation | IdiomsPhrasal | Grammar | Challenge

  /** The six screens of the view state machine. */
  datatype ViewMode = LangSelect | CatSelect | WordInput | Analysis | Loading | Error

  /** The string literal the source uses for each category. */
  function CategoryName(c: Category): string
  {
    match c
    case WordFormation => "WORD_FORMATION"
    case IdiomsPhrasal => "IDIOMS_PHRASAL"
    case Grammar => "GRAMMAR"
    case Challenge => "CHALLENGE"
  }

  /**
   * A parsed analysis payload, reduced to the two fields the session logic
   * reads. `category` is whatever string the payload carries: the service
   * echoes it and nothing checks that it names a category.
   */
  datatype WordAnalysis = WordAnalysis(word: string, category: string)

  /** One line of the history log. */
  datatype HistoryEntry = HistoryEntry(word: string, category: Category, timestamp: int)
}
