/** The word list the window reads once at start-up: one entry per row of the
    spreadsheet, with the columns English, German, French and Russian. */
module Vocabulary {

  /** The three languages that have a button; each names a column of the table. */
  datatype Language = English | German | French

  /** One row of the word list: a word in each language and its Russian translation. */
  datatype Entry = Entry(english: string, german: string, french: string, russian: string)

  /** The cell of row `e` in the column named by `lang`. */
  function Word(e: Entry, lang: Language): string {
    match lang
    case English => e.english
    case German => e.german
    case French => e.french
  }

  /** Every (word, translation) card the table holds for `lang`, one per row. */
  ghost function Cards(table: seq<Entry>, lang: Language): set<(string, string)> {
    set e | e in table :: (Word(e, lang), e.russian)
  }

  /** The card a translate handler shows for row `r`: the word in the chosen
      column and the Russian cell, both read from that one row. */
  function Lookup(table: seq<Entry>, r: int, lang: Language): (card: (string, string))
    requires 0 <= r < |table|
    ensures card in Cards(table, lang)
    ensures card.0 == Word(table[r], lang) && card.1 == table[r].russian
  {
    (Word(table[r], lang), table[r].russian)
  }

  /** Conversely, every card of the table is shown for some row. */
  lemma CardsAreLookups(table: seq<Entry>, lang: Language, card: (string, string))
    requires card in Cards(table, lang)
    ensures exists r :: 0 <= r < |table| && Lookup(table, r, lang) == card
  {
    var e :| e in table && (Word(e, lang), e.russian) == card;
    var r :| 0 <= r < |table| && table[r] == e;
    assert Lookup(table, r, lang) == card;
  }
}
