# AI Task Manager — a verified model of its core

This Dafny project models the core of the AI-Task-Manager desktop application:

- **The task store** (`database.py`): the SQLite `tasks` table. Here it is a `Database` class holding a sequence of rows and the AUTOINCREMENT counter.
- **The task service** (`tasks.py`): completion stamping, top-level filtering, the JSON/CSV export records and the additive import loops.
- **The AI helper** (`ai_helper.py`): the two fallback payloads, the parse-or-fallback rule, the prompt digests, the chat context and the extraction of suggested actions from a chat reply.
- **The decision logic of the window** (`gui.py`): the sort-column toggle and ordering, the search and filter predicate, the priority tags, the statistics counters, the add-task flow with its suggestions dialog, the slash-command dispatcher and the composition of a chat answer.

Modules, one per file:

- `Wrappers`: `Option` and `Result`.
- `Seqs`: list comprehensions with `if`, as `Filter`, `Map`, `MapFilter` and `Count`.
- `Strings`: Python's `strip`, `split`, `join`, `lower`, `in` on strings, string order and decimal text.
- `TaskStore`: the table and `Database`.
- `TaskService`: `TaskManager` and the import/export specifications.
- `AiHelper`: the AI helper.
- `Gui`: the window logic.

Rows are records with named fields rather than positional tuples. `Tuple` gives back the positional view where the source indexes rows (`t[9]`). Column values follow SQLite's affinity rules:

- the INTEGER columns (`id`, `parent_id`) turn decimal-digit text into integers, on insert and in comparisons;
- TEXT columns compare an integer operand as its decimal text.

Several things are inputs to the model rather than computed:

- **The clock.** `datetime.now()` becomes a `now` or `hoje` parameter.
- **The Groq call.** The AI service's reply is an `Option<string>` parameter; `None` is a failed call.
- **`json.loads`.** It is an abstract parser `string -> Option<Json>`.
- **Files.** Import and export work on already-decoded record lists.
- **What an addition depends on besides the form.** A `Review` value bundles today's date, the reply and the parser for `analisar_tarefa`, Tk's text for a suggested value that is not a JSON string, and the user's answer to the suggestions dialog.

Every operation that changes state is a method whose contract ties the new state to a specification function of the old one. The properties the source promises are proved about those functions as lemmas.

## Model

| member | source | states |
|---|---|---|
| TaskStore.ColumnNamed | database.py:19-33 | a column name resolves to the schema column of that name, and unknown names resolve to none |
| TaskStore.Allowed | database.py:55-63 | the update keeps exactly the requested keys that are in the allow-list, with their values |
| TaskStore.SetColumns | database.py:68-70 | an updated row holds the new text in every allow-listed column named in the update, and its old value in every other column |
| TaskStore.Constraints | database.py:85-88 | the WHERE clause constrains exactly the criteria that are not `None`, each to its value |
| TaskStore.UpdateEffect | database.py:53-72 | updating keeps the number of rows and every row's id, parent and creation date; other ids are untouched; the row with that id gets the allowed values, and keys such as `id` and `parent_id` are ignored |
| TaskStore.WithoutLength | database.py:74-78 | deleting removes exactly one row when the id is present and none otherwise |
| TaskStore.WithoutWellFormed | database.py:74-78 | deleting keeps the ids increasing and within the counter |
| TaskStore.SelectNothing | database.py:80-91 | with no non-`None` criterion the filter returns every row |
| TaskStore.InsertWellFormed | database.py:21 | appending a row with the next counter value keeps ids increasing, and the new id exceeds every existing one |
| TaskStore.Database.constructor | database.py:6-34 | the table starts empty with counter 0 |
| TaskStore.Database.AddTask | database.py:36-46 | the id is the counter plus one and exceeds every existing id; exactly one row is appended: state `pendente`, no completion date, the given fields and parent, creation time `now` |
| TaskStore.Database.GetAllTasks | database.py:48-51 | returns every row in storage order |
| TaskStore.Database.UpdateTask | database.py:53-72 | returns true iff some key is allow-listed, even when no row has the id; on false nothing changes; on true the rows become `UpdateRows` of the allowed keys |
| TaskStore.Database.DeleteTask | database.py:74-78 | reports true iff a row had that id; afterwards no row has it and the rest are kept in order |
| TaskStore.Database.GetTasksByFilter | database.py:80-91 | fails iff a criterion names no column; otherwise returns, in storage order, exactly the rows equal to every non-`None` criterion under column affinity |
| TaskStore.Database.GetSubtasks | database.py:93-96 | returns exactly the rows whose parent is that id |
| TaskStore.Database.HasSubtasks | database.py:98-101 | true iff some row has that id as parent |
| TaskService.WithCompletionStamp | tasks.py:39-40 | adds `data_conclusao = now` exactly when `estado` is `concluída`, and leaves every other key as given |
| TaskService.CompletionEffect | tasks.py:37-41 | marking done sets the state and stamps the completion date; any other update without `data_conclusao` never clears it |
| TaskService.TopLevelIffNoParent | tasks.py:31 | every row has ten columns, so the length guard always holds and a row is top-level iff it has no parent |
| TaskService.TopLevelExact | tasks.py:28-34 | the top-level list holds exactly the rows without a parent, in storage order |
| TaskService.ExportForgetsOnlyParent | tasks.py:56-67 | two rows export to the same record iff they differ at most in their parent: the nine exported fields are positions 0-8 |
| TaskService.CsvCells | tasks.py:104-115 | every CSV row has as many cells as the nine-name header |
| TaskService.DictRowKeys | tasks.py:156-157 | a CSV row read back has exactly the header's names as keys |
| TaskService.DictRowGet | tasks.py:156-157 | a header name that occurs once maps to its cell |
| TaskService.ExistingRowsMeaning | tasks.py:131-132 | the id lookup never fails; a `None` id matches every row, and any other id finds rows iff some row has that id under affinity |
| TaskService.InsertGrows | tasks.py:133-140 | creating a task only appends a row and advances the counter |
| TaskService.GrowsTransitive | tasks.py:129-140 | growing twice is growing |
| TaskService.ImportGrows | tasks.py:129-140 | an import never modifies or removes existing rows, and adds at most one row per record |
| TaskService.ImportAllSkipped | tasks.py:129-132 | when every record matches an existing row, the import changes nothing and reports no error |
| TaskService.ImportWithoutParents | tasks.py:133-140 | when no record supplies a parent, no imported row has one |
| TaskService.JsonSkipRule | tasks.py:131-132 | a JSON record is skipped iff its id matches a row at that moment (a `null` id matches any row, and a missing id is an error instead) |
| TaskService.JsonDefaults | tasks.py:133-140 | missing keys default to empty description, category and due date, priority `Média` and no parent |
| TaskService.JsonReimportIsNoop | tasks.py:51-67 | importing the JSON export of the current table changes nothing |
| TaskService.JsonRoundTripLosesParents | tasks.py:56-67 | re-importing a JSON export creates only tasks without a parent |
| TaskService.ImportSeesItsOwnRows | tasks.py:129-140 | each record is checked against rows created earlier in the same import, so a later record with a freshly issued id is skipped |
| TaskService.CsvRowReadBack | tasks.py:89-90 | reading an exported CSV row back gives the id's decimal text and the title under their header names, and no `Parent ID` |
| TaskService.CsvReimportIsNoop | tasks.py:85-115 | importing the CSV export of a well-formed table changes nothing |
| TaskService.CsvRoundTripLosesParents | tasks.py:159-167 | export never writes `Parent ID`, so re-importing a CSV export creates only tasks without a parent |
| TaskService.TaskManager.constructor | tasks.py:8-10 | the service starts on an empty store |
| TaskService.TaskManager.CriarTarefa | tasks.py:21-23 | the store becomes `Insert` of the new task, with the next id |
| TaskService.TaskManager.ObterTodasTarefas | tasks.py:25-35 | returns every row, or only the top-level ones |
| TaskService.TaskManager.AtualizarTarefa | tasks.py:37-41 | returns what the store's update returns for the stamped key set, and the rows change accordingly |
| TaskService.TaskManager.EliminarTarefa | tasks.py:43-45 | delegates to the store's delete unchanged |
| TaskService.TaskManager.FiltrarTarefas | tasks.py:47-49 | delegates to the store's filter unchanged |
| TaskService.TaskManager.ObterSubtarefas | tasks.py:177-179 | returns exactly the children of the task |
| TaskService.TaskManager.TemSubtarefas | tasks.py:181-183 | true iff the task has a child |
| TaskService.TaskManager.ExportarParaJson | tasks.py:51-67 | one record per row, in storage order, each the row's nine fields |
| TaskService.TaskManager.ExportarParaCsv | tasks.py:85-115 | the fixed header, then one nine-cell row per task in storage order |
| TaskService.TaskManager.ImportarDeJson | tasks.py:121-147 | the new store and the error are exactly `ImportJson` of the old store |
| TaskService.TaskManager.ImportarDeCsv | tasks.py:149-175 | the new store and the error are exactly `ImportCsv` of the old store |
| TaskService.FirstMissing | tasks.py:159-166 | names the first required key a CSV row lacks, the one whose lookup raises `KeyError`; none iff all are present |
| AiHelper.Field | gui.py:620-630 | a key is found iff the value is an object holding it |
| AiHelper.NextDay | ai_helper.py:20 | the day after a valid date is a valid, later date |
| AiHelper.NextDayIsNext | ai_helper.py:20 | supporting fact for the date arithmetic behind `timedelta(days=7)`: no valid date lies strictly between a date and its successor |
| AiHelper.PlusDays | ai_helper.py:20 | adding days to a valid date gives a valid date |
| AiHelper.MonthsOfYear | ai_helper.py:20 | the months of a year add up to 365 days, or 366 in a leap year |
| AiHelper.LeapDaysStep | ai_helper.py:20 | consecutive years start 365 or 366 days apart |
| AiHelper.NextDayOrdinal | ai_helper.py:20 | the next day is one day later on the day count |
| AiHelper.PlusDaysOrdinal | ai_helper.py:20 | `timedelta(days=n)` moves exactly n days on the day count |
| AiHelper.ParseDate | ai_helper.py:20 | a reference inverse of `strftime('%Y-%m-%d')`, not a function of the source, used to state the round trip: whatever parses as `YYYY-MM-DD` is a valid date |
| AiHelper.ShortDecimal | ai_helper.py:20 | supporting fact for the `%m`/`%d` round trip: a month or day number has at most two digits |
| AiHelper.PaddedDecimal | ai_helper.py:20 | zero-padded numbers read back as the same number and are at least as wide as the padding |
| AiHelper.FormatParseRoundTrip | ai_helper.py:20 | formatting a valid date as `%Y-%m-%d` and parsing it back gives the same date |
| AiHelper.DefaultAnalysisWellFormed | ai_helper.py:17-31 | the default analysis has every key with the right kind of value, and its due date parses back to today plus seven days |
| AiHelper.DefaultImprovementWellFormed | ai_helper.py:33-44 | the default improvement has every key; its title advice is the fixed prefix followed by the title; the suggested priority and category are valid exactly when the task's own are valid or absent |
| AiHelper.Digest | ai_helper.py:49-51 | the digest fails iff some task lacks a title, and is empty for no tasks |
| AiHelper.DigestSplitsIntoTasks | ai_helper.py:51 | a digest of single-line fields has one line per task, in order |
| AiHelper.AnalisarTarefa | ai_helper.py:46-105 | fails iff an existing task lacks a title (the digest's `KeyError` escapes); otherwise it is the parsed, stripped reply whenever the call returned and the text parses, and the seven-days-ahead fallback analysis whenever the call failed or the text does not parse; a result that is not a well-formed analysis is therefore the parsed reply |
| AiHelper.SugerirMelhorias | ai_helper.py:107-160 | fails iff the task lacks a title (the prompt's `KeyError` escapes); otherwise it is the parsed, stripped reply whenever the call returned and the text parses, and the fallback improvement built from the task whenever the call failed or the text does not parse; a result that is not a well-formed improvement is therefore the parsed reply |
| AiHelper.ParsedReplyPassesUnchecked | ai_helper.py:94-97 | any reply that parses is returned as parsed by both helpers, with no key validation; `null` is neither a well-formed analysis nor improvement |
| AiHelper.ContextLines | ai_helper.py:169-170 | one context line per task |
| AiHelper.ChatContextLines | ai_helper.py:166-170 | the context of single-line fields is the header, one line per task in order, and a final empty piece |
| AiHelper.ContextoChat | ai_helper.py:166-170 | the `+=` loop builds exactly the chat context, and fails on the first task missing a key |
| AiHelper.DropTwo | ai_helper.py:209 | `[2:]` drops exactly two characters, or everything when there are fewer |
| AiHelper.ActionsAreMarkedLines | ai_helper.py:205-209 | there is one action per marked line, in line order, each that line's text |
| AiHelper.ActionsOfSnoc | ai_helper.py:207-209 | one more line adds its action iff it is marked |
| AiHelper.ActionsOfAppend | ai_helper.py:206-209 | the actions of two runs of lines are the actions of each, in order |
| AiHelper.DropsExactlyTwo | ai_helper.py:209 | `-` followed by any character and a stripped text yields exactly that text: the character after the mark is dropped whatever it is |
| AiHelper.StripOfPrefixed | ai_helper.py:208 | a line without surrounding whitespace is its own stripped form, and it is marked iff it starts with the mark |
| AiHelper.ExtrairAcoes | ai_helper.py:204-209 | the extraction loop yields exactly the actions of the reply's lines |
| AiHelper.AnalisarMensagem | ai_helper.py:162-221 | on success the answer is the raw reply with its actions; on a failed call or a task missing a key it is the fixed apology with no actions |
| Gui.EntryLeTotal | gui.py:171 | any two `(value, item)` pairs are comparable |
| Gui.EntryLeTransitive | gui.py:171 | the pair order is transitive |
| Gui.InsertEntry | gui.py:171 | inserting adds exactly that entry |
| Gui.InsertEntryAscending | gui.py:171 | inserting into an ascending list keeps it ascending |
| Gui.SortEntries | gui.py:171 | sorting keeps exactly the same entries |
| Gui.SortEntriesAscending | gui.py:171 | the sorted entries are ascending |
| Gui.Reverse | gui.py:171 | reversing keeps the entries in mirrored positions |
| Gui.SortForViewCorrect | gui.py:168-171 | the view holds the same entries, ascending, or descending when `reverso` |
| Gui.ItemIds | gui.py:174-175 | the moved items are the entries' ids, in order |
| Gui.SortState.constructor | gui.py:96-99 | sorting starts on `ID`, ascending |
| Gui.SortState.OrdenarColuna | gui.py:158-175 | clicking the current column flips the direction; clicking another selects it ascending; the rows take the sorted order |
| Gui.PriorityTagExact | gui.py:689-697 | a priority has a tag iff it is `Alta`, `Média` or `Baixa`, and distinct priorities get distinct tags |
| Gui.ShownExact | gui.py:1025-1052 | the rows shown are, in order, the rows of the visible tasks: each comes from a visible task and every visible task is shown |
| Gui.NoFilterShowsAll | gui.py:1025-1034 | with `Todos`, `Todas` and an empty search every task is shown, in order |
| Gui.SearchIgnoresCase | gui.py:1021-1034 | the search matches the title regardless of its case |
| Gui.FiltrarTarefas | gui.py:1013-1052 | the `continue` loop inserts exactly the visible tasks, in order, each with its priority tag |
| Gui.BumpAvoids | gui.py:1083 | counting a category adds no other category |
| Gui.BumpEffect | gui.py:1083 | counting a category adds one to it and nothing to any other, and keeps one entry per category |
| Gui.CategoryTallyCorrect | gui.py:1080-1083 | each category's count is the number of tasks in it, each category appears once, and the counts add up to the number of tasks |
| Gui.StatsBounded | gui.py:1070-1077 | the three state counts, and the three priority counts, each add up to at most the number of tasks |
| Gui.MostrarEstatisticas | gui.py:1064-1083 | total, state, priority and category counts are the numbers of matching tasks |
| Gui.Applied | gui.py:572-576 | applying the suggestions keeps the description and takes the suggested category, priority and due date (their text when they are JSON strings) |
| Gui.Existing | gui.py:563-566 | one dictionary per stored task, in order, each holding that task's title |
| Gui.Suggestion | gui.py:560-567 | the analyser always returns an analysis here, because every stored task has a title |
| Gui.SuggestionIs | gui.py:560-567 | the analysis is the parsed reply when the reply parses, and the fallback analysis otherwise |
| Gui.AdicionarTarefa | gui.py:547-660 | no title creates nothing; a truthy analysis the dialog cannot read (a missing key, a non-object, a non-iterable similar-task list) creates nothing whatever the answer; otherwise exactly one task is created, from the form, with the suggestions when the user applies them; the new table is `Added` of the old |
| Gui.WellFormedAnalysisIsShown | gui.py:569-630 | an analysis of the shape the prompt asks for, the fallback among them, is truthy and readable by the dialog |
| Gui.FallbackReviewed | gui.py:572-576 | applying the fallback analysis makes the task personal, of medium priority and due seven days from today |
| Gui.FallbackSuggestionApplied | gui.py:558-585 | with the AI call failing or its text unparseable, a titled task is still created: as filled in, or personal, medium and due in a week when the user applies the suggestions |
| Gui.UnreadableSuggestionCreatesNothing | gui.py:569-601 | a reply that parses to a truthy value the dialog cannot read leaves the table unchanged for both answers |
| Gui.PriorityOnlyIsUnreadable | gui.py:620-624 | an object holding only a priority is truthy but cannot be shown |
| Gui.FalsySuggestionKeepsForm | gui.py:569-585 | a reply that parses to a falsy value shows no dialog and the task is created exactly as filled in |
| Gui.ListingLines | gui.py:1387-1388 | one listing line per task |
| Gui.ListingLinesExact | gui.py:1386-1389 | the listing is the header, one line per task in order, and nothing else |
| Gui.ListarTarefas | gui.py:1380-1389 | the `+=` loop builds exactly the listing, or the no-tasks message |
| Gui.CommandReply | gui.py:1368-1404 | there is an answer exactly for the three command prefixes |
| Gui.ProcessarComando | gui.py:1368-1404 | commands match by prefix in order; `/criar_tarefa` without a space gives the unpack error, and with one runs the add-task flow on the rest (`Added`) and reports success whatever it did; listing and help are fixed; anything else gives none; only task creation changes the store |
| Gui.CreateCommandAdds | gui.py:1370-1376 | `/criar_tarefa <title>` reports success and adds exactly what the form would add with that title |
| Gui.CommandTitleAfterFirstSpace | gui.py:1373 | the title is exactly the text after the first space, so `/criar_tarefa ` sent to the dispatcher directly gives an empty title |
| Gui.CommandsStartWithSlash | gui.py:1419-1423 | every command starts with `/`, so every command reaches the dispatcher |
| Gui.Bullets | gui.py:1447-1448 | one bullet line per action |
| Gui.ComporResposta | gui.py:1441-1449 | the answer is the reply, plus the heading and one bullet per action only when there are actions |
| Gui.BulletBlockAsJoin | gui.py:1446-1448 | the heading and bullets are the lines of the block joined by newlines |
| Gui.BulletAction | gui.py:1448 | a bullet is an action line whose action is the stripped text |
| Gui.BulletsActions | gui.py:1446-1448 | reading the bullets gives back each action stripped |
| Gui.BulletBlockLines | gui.py:1446-1448 | the heading and bullets split into one line each |
| Gui.HeadedBlockLines | gui.py:1446-1448 | a one-line heading followed by bullets splits into one line each |
| Gui.ComposedLines | gui.py:1444-1448 | the composed text splits into the reply's lines, a blank line, the heading and the bullets |
| Gui.ReplyThenBlockLines | gui.py:1446 | a text followed by a blank line and a block splits into the text's lines, an empty line and the block's lines |
| Gui.NotActionLine | gui.py:1446 | the heading is not read as an action |
| Gui.HeadingHasNoActions | gui.py:1446 | the blank line and the heading carry no action |
| Gui.ActionsSkipSilentLines | gui.py:1446 | lines without actions contribute nothing |
| Gui.ComposedActions | gui.py:1441-1449 | reading actions back from the composed answer gives the reply's own actions followed by each suggested action stripped |
| Gui.EnviarMensagem | gui.py:1406-1463 | an empty message is ignored; a command is answered locally, with the dispatcher's answer to the stripped message, and never reaches the AI; anything else is answered by the analysis, composed; the new table is the dispatcher's on the stripped message, so only a command can change it |
| Gui.ChatTitlesAreNonEmpty | gui.py:1408 | a `/criar_tarefa` typed into the chat that has a title at all has a non-empty one, since the message is stripped first |
| Gui.TitleBeforeLastChar | gui.py:1373 | in a text not ending in a space, the text after the first space is non-empty |
| Gui.ResponderComIa | gui.py:1427-1451 | the current tasks go to the analysis as dictionaries, and its answer is composed, or the apology on failure |

## Left out

- SQLite mechanics (connection, cursor, SQL text, `commit`) are replaced by the row sequence and the counter.
- The schema's `ON DELETE CASCADE` is not modelled. The connection never enables foreign keys, so deleting a parent leaves its children.
- Column names in filters match exactly. SQLite's case-insensitive column names and the `rowid` alias are not modelled.
- Type affinity recognises only plain decimal digit strings. Signs, spaces, floats and reals are not modelled.
- The clock is a parameter: one `now` serves a whole import, where the source reads the clock once per created task.
- `strftime` is modelled only for `YYYY-MM-DD` dates. Years above 9999, which raise `OverflowError` in Python, are not modelled.
- The Groq client, the API key, the prompt texts and the model settings are left out. The reply is a parameter, and so is the outcome of `json.loads`.
- File I/O, paths, `os.makedirs`, and the `json`/`csv` encodings and CSV quoting are left out. Import and export work on decoded records.
- Ragged CSV rows and blank lines are not modelled; `DictRow` pairs equal-length rows only.
- JSON records carry only the keys the import reads. Non-string values for text fields are not modelled.
- Widgets, dialogs, themes, message boxes, window centring, heading arrows and the chat bubbles are left out.
- The recursive subtree population (gui.py:681-687) is left out: it need not terminate on a cycle of parent links.
- The statistics window hides categories with an empty name (gui.py:1144-1146); the tally still counts them.
- Gui.AdicionarTarefa: a suggested value that is not a JSON string goes into the form as Tk's text for it; that conversion is the `render` parameter, and Tcl's rules for it are not modelled.
- Gui.AdicionarTarefa: closing the suggestions dialog without answering counts as "No", which is the `aplicar = false` case; the dialog's own text and layout are left out.
- TaskStore.Database.UpdateTask: keyword values are strings. A `None` value, which gui.py:803-807 can pass through `ajustes.get(...)` and SQLite stores as NULL, is not modelled, because the task's text columns are modelled as non-null strings.
- TaskService.TaskManager.AtualizarTarefa: keyword values are strings, so the `None` values gui.py:803-807 can pass (a NULL priority or category) are not modelled.
- TaskStore.Database.constructor: models only the first run, with no `data/tasks.db`; a later session reopens the persisted rows and AUTOINCREMENT counter, which are not modelled (every method accepts any valid state).
- The `__del__` finalisers, `fechar_conexao` and `main.py` are left out.
- `Lower` folds ASCII and Latin-1 capitals only; other Unicode case mappings are not modelled.
- AiHelper.AnalisarTarefa: `tarefas_existentes=None` is modelled as the empty list.
