# Language Learning App: the word selector, modelled in Dafny

The application is a flashcard window with three buttons: English, German and
French. Each press picks a random row of a word list read once at start-up
(columns English, German, French and Russian). It then shows the row's word in
the chosen language and its Russian translation. The pick avoids repeating the
row shown just before. This project models that selector and the lookup behind
the three buttons, and proves what they promise.

- `vocabulary.dfy` (module `Vocabulary`) holds the table as a sequence of
  `Entry` records, the `Language` of each button, and `Lookup`, the pure read of
  two cells of one row.
- `selector.dfy` (module `Selector`) describes one call of `get_random_index` as
  a function, `Select`. It also describes a run of successive calls sharing the
  random generator as a function, `Session`. The lemmas state the selector's
  guarantees.
- `main_window.dfy` (module `MainWindow`) holds the class `Window` with the
  field the source updates in place, `previousIndex`, and the two label texts.
  `GetRandomIndex` keeps the source's rejection loop. `Translate` is the button
  handler. Both are proved against the functions above.

`random.randint` is not called. Its upcoming outputs are a parameter `rng`:
the values it will return, in order. A call consumes a prefix of them and
returns how many it used, so that the next call starts after them. The
rejection loop ends as soon as a draw differs from the last index. The method
therefore requires that some upcoming draw differs (`Accepts`). This states
outright the termination that the source gets with probability one.

## Model

| member | source | states |
|---|---|---|
| `Vocabulary.Lookup` | main.py:202-215 | for a row in range, the card shown is the chosen language's cell and the Russian cell of that same row, and it is one of the table's cards |
| `Vocabulary.CardsAreLookups` | main.py:204-205 | conversely, every (word, translation) pair of the table is what the lookup gives for some row |
| `Selector.FirstAccepted` | main.py:196-198 | the rejection loop accepts the first draw that differs from the last index, and every draw before it equals the last index |
| `Selector.Select` | main.py:191-200 | with at most one row the call returns 0, draws nothing and keeps the remembered index; otherwise it returns a draw that differs from the last index, lies in `0..n-1` when the draws do, and becomes the remembered index |
| `Selector.FirstDrawAccepted` | main.py:196-198 | starting from the initial -1, which is no row, the first draw on a table of two or more rows is accepted whatever it is |
| `Selector.Session` | main.py:191-200 | successive calls sharing one stream of draws yield at most one index per call |
| `Selector.SessionShowsDraws` | main.py:196-199 | with two or more rows, when no draw repeats the one before it and the first differs from the remembered index, every call accepts its first draw, so the calls show exactly the draws, one index per call |
| `Selector.SessionSingleRow` | main.py:193-194 | with at most one row every call returns 0 |
| `Selector.SessionInRange` | main.py:198 | with two or more rows every returned index names a row |
| `Selector.SessionNoRepeats` | main.py:196-199 | with two or more rows no call returns the index returned just before it, the first call included |
| `Selector.SessionAlternates` | main.py:191-200 | with exactly two rows successive calls alternate between rows 0 and 1 |
| `MainWindow.Window.constructor` | main.py:70-74 | a new window remembers index -1 and shows empty labels (the labels are created without text in `setupUi`, main.py:146-152) |
| `MainWindow.Window.GetRandomIndex` | main.py:191-200 | the loop computes exactly `Select`: the returned index, the draws consumed and the new remembered index; with two or more rows the index is in range and differs from the old remembered index, which it replaces; with at most one row it returns 0 and changes nothing |
| `MainWindow.Window.Translate` | main.py:202-215 | a button press selects a row and sets the word and translation labels to that row's cells; on an empty table the selector's 0 has no row, the press fails with `IndexError` and the labels keep their text |
| `MainWindow.EnglishTwice` | main.py:202-205 | on the two-word table (cat, dog) two English presses on a fresh window show both cards, each once |

## Left out

- The PyQt user interface: the splash screen, window geometry, stylesheets, widget order, signal connections and label fonts (main.py:9-64, main.py:79-189). The labels are modelled only as the two strings the handlers set.
- The theme switch (main.py:45-56) and the `theme_dark` flag handed to the window. They only choose stylesheet strings.
- Reading `languages.xlsx` with pandas, and the missing-file path that shows a message box and exits (main.py:72-77). The loaded table is a parameter of the constructor.
- Vocabulary.Entry: every cell is a string. pandas reads a blank cell as NaN and a numeric cell as a number, and `setText` then raises TypeError (main.py:204-205, 209-210, 214-215). That happens after the index was remembered (main.py:199), and after the word label changed when only the Russian cell is bad. This failure is not modelled.
- MainWindow.Window.Translate: models the empty-table press as returning `Failure(IndexError)` and leaving the window as it was. Under PyQt5 5.5 and later an exception escaping a slot ends the application, so in practice that press is the session's last.
- The column lookup by string key: the model uses a record with one field per column, so an unknown column name cannot arise.
- `random.randint` itself. Its outputs are a parameter, and the model makes no claim about their uniformity.
- Selector.Select, MainWindow.Window.GetRandomIndex and MainWindow.Window.Translate: take as a precondition that the rejection loop ends within the given draws. With a real generator this holds only with probability one, which Dafny cannot state.
- The application bootstrap under `__main__` (main.py:218-222).
