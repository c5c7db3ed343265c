/** The main window's state that the translate buttons change: the table read
    at start-up, the index the selector returned last, and the texts of the
    word and translation labels. */
module MainWindow {
  import opened Vocabulary
  import opened Selector

  /** `iloc` raises this when asked for a row the table does not have. */
  datatype Error = IndexError

  datatype Result<T> = Success(value: T) | Failure(error: Error)

  class Window {
    const table: seq<Entry>
    var previousIndex: int
    var wordText: string
    var translationText: string

    /** The window after the table has been read: no index chosen yet (-1,
        which no row has) and both labels empty. */
    constructor (table: seq<Entry>)
      ensures this.table == table && previousIndex == -1
      ensures wordText == "" && translationText == ""
    {
      this.table := table;
      previousIndex := -1;
      wordText, translationText := "", "";
    }

    /** Picks a row index different from the one picked last time. `rng` holds
        the upcoming outputs of `randint(0, |table| - 1)`; `used` is how many
        of them the rejection loop consumed. */
    method GetRandomIndex(rng: seq<int>) returns (index: int, used: nat)
      requires |table| >= 2 ==> InRange(rng, |table|) && Accepts(rng, previousIndex)
      modifies this`previousIndex
      ensures Draw(index, previousIndex, used) == Select(|table|, old(previousIndex), rng)
      ensures |table| <= 1 ==> index == 0 && previousIndex == old(previousIndex)
      ensures |table| >= 2 ==> 0 <= index < |table| && index != old(previousIndex)
      ensures |table| >= 2 ==> previousIndex == index
    {
      if |table| <= 1 {
        return 0, 0;
      }
      ghost var k := FirstAccepted(rng, previousIndex);
      index := previousIndex;
      used := 0;
      while index == previousIndex
        invariant used <= k + 1
        invariant used == 0 ==> index == previousIndex
        invariant used > 0 ==> index == rng[used - 1]
        invariant (index == previousIndex) == (used <= k)
        decreases k + 1 - used
      {
        index := rng[used];
        used := used + 1;
      }
      previousIndex := index;
    }

    /** The English, German and French button handlers: pick a row and show
        its word in `lang` and its Russian translation. On an empty table the
        selector still answers 0 and reading that row fails. */
    method Translate(lang: Language, rng: seq<int>) returns (shown: Result<(string, string)>, used: nat)
      requires |table| >= 2 ==> InRange(rng, |table|) && Accepts(rng, previousIndex)
      modifies this
      ensures var d := Select(|table|, old(previousIndex), rng);
        previousIndex == d.previous && used == d.used &&
        if 0 <= d.index < |table| then
          shown == Success(Lookup(table, d.index, lang)) &&
          wordText == shown.value.0 && translationText == shown.value.1
        else
          shown == Failure(IndexError) &&
          wordText == old(wordText) && translationText == old(translationText)
      ensures shown.Failure? <==> table == []
    {
      var r;
      r, used := GetRandomIndex(rng);
      if r < |table| {
        var card := Lookup(table, r, lang);
        wordText, translationText := card.0, card.1;
        shown := Success(card);
      } else {
        shown := Failure(IndexError);
      }
    }
  }

  /** The two-word table: a cat and a dog. */
  const Pets: seq<Entry> := [
    Entry("cat", "Katze", "chat", "кот"),
    Entry("dog", "Hund", "chien", "собака")
  ]

  /** Pressing English twice on a fresh window over the two-word table shows
      both cards, one after the other, never the same one twice. */
  method EnglishTwice(rng: seq<int>) returns (first: (string, string), second: (string, string))
    requires InRange(rng, 2) && rng != [] && Accepts(rng[1..], rng[0])
    ensures {first, second} == {("cat", "кот"), ("dog", "собака")}
    ensures first != second
  {
    var w := new Window(Pets);
    FirstDrawAccepted(2, rng);
    var a, used := w.Translate(English, rng);
    assert used == 1;
    var b, _ := w.Translate(English, rng[used..]);
    first, second := a.value, b.value;
  }
}
