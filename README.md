# Lotofácil draw processing and statistics, in Dafny

This project models the core of a Lotofácil results processor. A Lotofácil draw (`Concurso`) picks 15 distinct numbers ("dezenas") out of 1..25. The processor does four things:

- reads the official results spreadsheet row by row into draws;
- stores the new draws in a repository, in batches of 100;
- records on each new draw which of its numbers are new and which repeat the previous draw;
- computes frequency and absence statistics over windows of draws: the 50 draws before each new draw past number 50, and the 50 newest stored draws.

Modules, one per source file:

| module | file | models |
|---|---|---|
| `ConcursoEntity` | `Concurso.dfy` | the draw entity: validation on creation, the derived numbers not drawn, the sorted getters, the two comparison fields and the two pre-draw statistics fields |
| `EstatisticasValue` | `DezenasEstatisticas.dfy` | the statistics report value and its `create`: sorted, truncated copies of the lists it is given |
| `EstatisticasService` | `DezenasEstatisticasService.dfy` | `calcular`: the counter map filled in nested loops and the absence scan with `break`, proved against functions of the window |
| `Ingestao` | `ProcessLotofacilData.dfy` | `execute`: the batch loop, the `exists` check, the comparison with the previous draw, `saveMany`, the pre-draw statistics and the final report |
| `Repositorio` | `ConcursoRepository.dfy` | the repository `execute` calls, as an in-memory class over a map from draw number to draw |
| `CaixaProvider` | `CaixaDataProvider.dfy` | the row checks of `parseRowToConcurso`, the row loop and final sort of `processLotofacilData`, and `parseDate`'s trim, `dd/MM/yy(yy)` pattern, two-digit year and calendar check |
| `StableSort` | `StableSort.dfy` | JavaScript's stable `Array.prototype.sort` with a numeric comparator, `slice(0, n)` and counting with a filter |
| `Wrappers` | `Wrappers.dfy` | `Option` for `null`/`undefined`, `Result` and `Outcome` for thrown errors |

Entities the source updates in place are classes:

- `Concurso`: its comparison and statistics fields are assigned after creation.
- `ConcursoRepository`: `saveMany` and `update` change it.

The other entities are datatypes.

The loops of `calcular`, `execute`, `parseRowToConcurso` and `processLotofacilData` are `while` loops with invariants. Each such method is proved against a function of its inputs; the properties the source promises are lemmas about those functions.

Spreadsheet cells are `Celula` values: empty, a number, or a text. Three conversions whose behaviour comes from libraries are parameters, bundled in `Leitores`:

- `parseFloat` of a text;
- the native `new Date(text)`;
- the Excel serial-date decode.

A draw's date is a year, month and day.

Behaviour of the code that the model keeps:

- **Empty window.** `calcular` on an empty window takes an early return with empty lists (`src/application/services/DezenasEstatisticasService.ts:7-9`). `EstatisticasService.Estatisticas` states this.
- **Ties in the rankings.** The comparators compare only the count or the absence (`src/domain/value-objects/DezenasEstatisticas.ts:34-40`). Ties therefore keep their input order, by the stability of the sort. `calcular` builds its lists by ascending number, so equal counts come out by ascending number (`EstatisticasService.EmpatesEmOrdemDeDezena`).
- **`qtdTop`.** It may be any number: `slice(0, qtdTop)` with a negative `qtdTop` counts back from the end (`DezenasEstatisticas.ts:36`). `StableSort.Take` models that.
- **Year pivot.** The century is added whenever the parsed year is below 100 (`src/infrastructure/adapters/CaixaDataProvider.ts:184-187`). The test is on the value, so a four-digit `0050` also becomes 2050.
- **The four-argument call.** `calcular` passes four arguments to the six-parameter `DezenasEstatisticas.create` (`DezenasEstatisticasService.ts:8, 49`). The model uses the intended call and records the call as written under Findings.
- **Extra fields.** `execute` assigns `estaticPreConcMaisOcorrencias` and `estaticPreConcMaisAtrasadas` on a draw (`src/application/use-cases/ProcessLotofacilData.ts:62-63`), though `Concurso` declares neither. They are plain mutable fields of the class here.

## Model

| member | source | states |
|---|---|---|
| ConcursoEntity.ValidateDezenas | src/domain/entities/Concurso.ts:74-88 | passes exactly for 15 numbers, all in 1..25, pairwise distinct; otherwise fails with the error of the first check that fails, in the source's order (length, range, repeats), each error stated as an if-and-only-if |
| ConcursoEntity.CountPositive | src/domain/entities/Concurso.ts:79-80 | the list of numbers outside 1..25 is non-empty exactly when some number lies outside 1..25 |
| ConcursoEntity.DistinctCardinality | src/domain/entities/Concurso.ts:84-87 | the `Set` of the numbers never has more elements than the list, and has as many exactly when no number repeats |
| ConcursoEntity.Concurso.constructor | src/domain/entities/Concurso.ts:11-32 | the draw keeps every argument in its field; the statistics fields start unset |
| ConcursoEntity.Concurso.Create | src/domain/entities/Concurso.ts:34-72 | fails exactly when the numbers are invalid, with `validateDezenas`'s error; otherwise returns a new draw holding the given number, date, numbers, takings, prizes and comparison lists, statistics unset |
| ConcursoEntity.TodasDezenasFacts | src/domain/entities/Concurso.ts:7 | the universe constant lists each of 1..25 once, ascending |
| ConcursoEntity.Without | src/domain/entities/Concurso.ts:31 | the filter keeps exactly the elements of the universe not in the draw |
| ConcursoEntity.WithoutStrictlyAscending | src/domain/entities/Concurso.ts:31 | filtering an ascending universe gives an ascending list |
| ConcursoEntity.SortAscending | src/domain/entities/Concurso.ts:99 | `sort((a, b) => a - b)` on a copy returns an ascending permutation of the list |
| ConcursoEntity.SortAscendingOfAscending | src/domain/entities/Concurso.ts:135 | sorting an already ascending list returns it unchanged |
| ConcursoEntity.Concurso.DezenasOrdenadas | src/domain/entities/Concurso.ts:98-100 | the getter returns the stored numbers as a strictly ascending permutation of 15 entries, with the same members |
| ConcursoEntity.Concurso.DezenasNaoSorteadas | src/domain/entities/Concurso.ts:134-136 | the numbers not drawn are exactly those in 1..25 absent from the draw, strictly ascending |
| ConcursoEntity.NaoSorteadasCount | src/domain/entities/Concurso.ts:31 | a valid draw leaves exactly 10 numbers undrawn |
| ConcursoEntity.DrawnAndUndrawnPartition | src/domain/entities/Concurso.ts:31 | drawn and undrawn numbers are disjoint and together make up 1..25 |
| ConcursoEntity.Concurso.ContainsDezenaAgreesWithGetters | src/domain/entities/Concurso.ts:153-155 | `containsDezena(d)` holds exactly when `d` is in the `dezenas` getter, and for `d` in 1..25 exactly when it is not among the undrawn numbers |
| ConcursoEntity.Concurso.MasAusentesAnterior | src/domain/entities/Concurso.ts:138-140 | the getter returns an ascending permutation of the last list set, or `[]` when none was set |
| ConcursoEntity.Concurso.RepetidasAnterior | src/domain/entities/Concurso.ts:146-148 | the same for the repeated numbers |
| ConcursoEntity.Concurso.SetMasAusentesAnterior | src/domain/entities/Concurso.ts:142-144 | the setter stores the list; the other three mutable fields are unchanged |
| ConcursoEntity.Concurso.SetRepetidasAnterior | src/domain/entities/Concurso.ts:149-151 | the setter stores the list; the other three mutable fields are unchanged |
| EstatisticasValue.Max | src/domain/value-objects/DezenasEstatisticas.ts:44-45 | `Math.max` of a non-empty list is an element of it, and no element exceeds it |
| EstatisticasValue.MaiorSequencia | src/domain/value-objects/DezenasEstatisticas.ts:44-53 | a number with no runs scores 0; otherwise its score is its longest run |
| EstatisticasValue.Ranked | src/domain/value-objects/DezenasEstatisticas.ts:34-40 | sort-then-slice is non-increasing in the key, has the length `slice(0, n)` leaves, draws on the input's elements, and keeps all of them when `n` is the length |
| EstatisticasValue.Create | src/domain/value-objects/DezenasEstatisticas.ts:26-65 | each of the four lists is non-increasing in its key; the two ranked lists are cut by `qtdTop` and draw on their inputs; the two run-length lists are permutations of their inputs; the total is stored as given |
| EstatisticasValue.CreateDefaults | src/domain/value-objects/DezenasEstatisticas.ts:32 | without `qtdTop` the call is the call with 10 |
| EstatisticasValue.RankedListsArePrefixesOfStableSorts | src/domain/value-objects/DezenasEstatisticas.ts:34-40 | the two ranked lists are the first `qtdTop` entries of any stable sort of their inputs |
| EstatisticasValue.RunLengthListsAreStableSorts | src/domain/value-objects/DezenasEstatisticas.ts:42-56 | both run-length lists are stable sorts of their inputs by longest run, with nothing dropped |
| EstatisticasValue.RankedListsKeepTheTop | src/domain/value-objects/DezenasEstatisticas.ts:34-40 | no entry the truncation drops has a higher count, or a longer absence, than an entry it keeps |
| EstatisticasValue.TiesKeepInputOrder | src/domain/value-objects/DezenasEstatisticas.ts:34-40 | for inputs ascending by number, entries with equal counts or equal absences stay in ascending number order |
| EstatisticasValue.ToJsonInjective | src/domain/value-objects/DezenasEstatisticas.ts:87-101 | two reports with the same JSON are the same report |
| StableSort.Insert | src/domain/value-objects/DezenasEstatisticas.ts:34-35 | one insertion step adds exactly the element to the list |
| StableSort.InsertSorted | src/domain/value-objects/DezenasEstatisticas.ts:34-35 | inserting into a sorted list keeps it sorted |
| StableSort.SortDesc | src/domain/value-objects/DezenasEstatisticas.ts:34-35 | the sort returns a permutation of its input, non-increasing in the key |
| StableSort.SortDescIsStable | src/domain/value-objects/DezenasEstatisticas.ts:34-35 | for every key, the elements with that key keep their input order |
| StableSort.StableSortUnique | src/domain/value-objects/DezenasEstatisticas.ts:34-35 | two sorted lists with the same elements per key, in the same order, are equal |
| StableSort.StableSortIsSortDesc | src/domain/value-objects/DezenasEstatisticas.ts:34-35 | any stable sort of a list, whatever its algorithm, is `SortDesc` of it |
| StableSort.SortDescKeepsTies | src/domain/value-objects/DezenasEstatisticas.ts:34-35 | a tie-break order the input already has survives the sort |
| StableSort.Take | src/domain/value-objects/DezenasEstatisticas.ts:36 | `slice(0, n)` is a prefix whose length is `n` clamped to the list, a negative `n` counting back from the end |
| StableSort.TakeOfSortedIsTop | src/domain/value-objects/DezenasEstatisticas.ts:34-36 | nothing that sort-then-slice drops outranks anything it keeps |
| StableSort.CountPermutation | src/application/services/DezenasEstatisticasService.ts:16-21 | a filtered count depends only on the elements, not on their order |
| EstatisticasService.ContarOcorrencias | src/application/services/DezenasEstatisticasService.ts:11-21 | after both loops the map has exactly the keys 1..25, and each holds the number of draws of the window that drew it |
| EstatisticasService.ListarOcorrencias | src/application/services/DezenasEstatisticasService.ts:23-24 | the entries of the map in insertion order are the frequency list of the window |
| EstatisticasService.OcorrenciasUmaPorDezena | src/application/services/DezenasEstatisticasService.ts:11-24 | before ranking there are 25 entries, one per number 1..25, ascending, each at most the window size |
| EstatisticasService.ContribuicaoDeUmConcurso | src/application/services/DezenasEstatisticasService.ts:16-21 | each draw adds exactly 15 to the counters of 1..25 |
| EstatisticasService.SomaOcorrenciasIgualQuinzePorConcurso | src/application/services/DezenasEstatisticasService.ts:16-21 | the counts add up to 15 per draw of the window |
| EstatisticasService.OcorrenciasIndependemDaOrdem | src/application/services/DezenasEstatisticasService.ts:16-21 | two windows with the same draws in any order give the same frequency list and the same `maisSorteadas` |
| EstatisticasService.MaisRecentesPrimeiro | src/application/services/DezenasEstatisticasService.ts:28 | the copy sorted newest first is a permutation of the window, descending by draw number |
| EstatisticasService.Ausencia | src/application/services/DezenasEstatisticasService.ts:31-47 | the scan counts at most the window; `ultimoConcurso` is unset exactly when it counted all of it; the counted draws do not hold the number, and the draw it stopped at holds it and gives `ultimoConcurso` |
| EstatisticasService.VarrerAusencia | src/application/services/DezenasEstatisticasService.ts:31-40 | the loop with `break` computes that scan |
| EstatisticasService.AusenciasPorDezena | src/application/services/DezenasEstatisticasService.ts:28-47 | 25 absence entries, entry `i` the scan of number `i + 1` over the draws newest first |
| EstatisticasService.ListarAusencias | src/application/services/DezenasEstatisticasService.ts:27-47 | the outer loop of the absence part builds that list |
| EstatisticasService.AusenciasLimitadas | src/application/services/DezenasEstatisticasService.ts:30-47 | each absence is at most the window size, equal to it exactly when `ultimoConcurso` is unset, which happens exactly when the number never appeared |
| EstatisticasService.UltimoConcursoEhOMaisRecente | src/application/services/DezenasEstatisticasService.ts:28-40 | a set `ultimoConcurso` is the number of a draw of the window that drew the number, and no such draw has a higher number |
| EstatisticasService.UltimoConcursoContaOsMaisNovos | src/application/services/DezenasEstatisticasService.ts:28-40 | with one draw per number, the absence is the number of draws newer than `ultimoConcurso`, none of which drew the number |
| EstatisticasService.ListasEmOrdemDeDezena | src/application/services/DezenasEstatisticasService.ts:12-30 | both lists handed to `create` are in ascending number order |
| EstatisticasService.EmpatesEmOrdemDeDezena | src/application/services/DezenasEstatisticasService.ts:23-49 | in the report, equal counts and equal absences appear by ascending number |
| EstatisticasService.Estatisticas | src/application/services/DezenasEstatisticasService.ts:7-49 | the report records the window size as total and empty run-length lists; an empty window gives empty ranked lists |
| EstatisticasService.Calcular | src/application/services/DezenasEstatisticasService.ts:6-50 | the method returns the report of its window |
| EstatisticasService.Espalhar | src/domain/value-objects/DezenasEstatisticas.ts:42-50 | spreading a list copies it; spreading a number throws a `TypeError` |
| EstatisticasService.CreatePosicional | src/domain/value-objects/DezenasEstatisticas.ts:26-65 | `create` with arbitrary values in its run-length slots succeeds exactly when both are lists, and then is `Create`; a number in the third slot throws |
| EstatisticasService.CalcularComoEscritoSempreLanca | src/application/services/DezenasEstatisticasService.ts:7-49 | as written, every call of `calcular` throws, so it never returns the intended report |
| EstatisticasService.ChamadaComSeisArgumentos | src/application/services/DezenasEstatisticasService.ts:7-49 | the six-argument call, with empty run-length lists and the window size, gives the intended report on both branches |
| Repositorio.InsertMany | src/infrastructure/adapters/MongoConcursoRepository.ts:92-97 | the unordered bulk insert stores every number of the batch and keeps every stored draw |
| Repositorio.InsertManyOk | src/infrastructure/adapters/MongoConcursoRepository.ts:92-97 | it reports no error exactly when every number is free and the batch repeats none |
| Repositorio.InsertManyIndexado | src/infrastructure/adapters/MongoConcursoRepository.ts:92-97 | every draw stays under its own number, and a new key holds a draw of the batch |
| Repositorio.InsertManyGuarda | src/infrastructure/adapters/MongoConcursoRepository.ts:92-97 | after a clean insert each draw of the batch is stored under its number |
| Repositorio.InsertManyCardinality | src/infrastructure/adapters/MongoConcursoRepository.ts:92-97 | a clean insert adds one key per draw |
| Repositorio.EntreFacts | src/infrastructure/adapters/MongoConcursoRepository.ts:70-76 | the range query returns exactly the stored draws numbered in range, each once, ascending |
| Repositorio.EntreLocal | src/infrastructure/adapters/MongoConcursoRepository.ts:70-76 | the range query sees only the keys in range |
| Repositorio.MaisRecentesFacts | src/infrastructure/adapters/MongoConcursoRepository.ts:109-117 | `findLatest(limit)` returns `limit` draws, or all when fewer are stored or the limit is 0; they are stored draws, newest first, and no stored draw left out is newer than one returned |
| Repositorio.ConcursoRepository.Exists | src/infrastructure/adapters/MongoConcursoRepository.ts:119-122 | true exactly when the number is stored |
| Repositorio.ConcursoRepository.FindByNumero | src/infrastructure/adapters/MongoConcursoRepository.ts:99-102 | the stored draw, or `None` exactly when the number is not stored |
| Repositorio.ConcursoRepository.SaveMany | src/infrastructure/adapters/MongoConcursoRepository.ts:92-97 | the new store and the error flag are those of the bulk insert; each draw stays under its own number |
| Repositorio.ConcursoRepository.Update | src/infrastructure/adapters/MongoConcursoRepository.ts:62-68 | replaces a stored draw and never adds one |
| Repositorio.ConcursoRepository.FindBetweenNumeros | src/infrastructure/adapters/MongoConcursoRepository.ts:70-76 | returns the range query |
| Repositorio.ConcursoRepository.FindLatest | src/infrastructure/adapters/MongoConcursoRepository.ts:109-117 | its loop returns the `limit` newest draws |
| Ingestao.Filtrar | src/application/use-cases/ProcessLotofacilData.ts:42-43 | the filter keeps exactly the elements in both lists and keeps an ascending list ascending |
| Ingestao.FiltrarComplementares | src/application/use-cases/ProcessLotofacilData.ts:42-43 | filtering by two complementary tests splits the list between the two results |
| Ingestao.ComparacaoParticiona | src/application/use-cases/ProcessLotofacilData.ts:42-43 | against a previous draw, the new numbers are those it did not draw and the repeated ones those it drew; both lists are ascending, and together they are the 15 numbers, each once |
| Ingestao.ComparacaoSemAnterior | src/application/use-cases/ProcessLotofacilData.ts:42-43 | without a previous draw both lists are `[]` |
| Ingestao.Procurar | src/application/use-cases/ProcessLotofacilData.ts:38 | `find` returns the first downloaded draw with the number, no earlier draw having it, and `None` exactly when no draw has it |
| Ingestao.ComparacaoOutraBase | src/application/use-cases/ProcessLotofacilData.ts:38-41 | the repository is consulted only for numbers not downloaded, so a run's own saves never change a comparison |
| Ingestao.JanelaFacts | src/application/use-cases/ProcessLotofacilData.ts:56-60 | the window of draw `n` holds at most 50 draws, ascending, numbered `n - 50` to `n - 1`, and every stored draw in that range |
| Ingestao.EstatisticaTopDez | src/application/use-cases/ProcessLotofacilData.ts:61-63 | each of the two lists a draw records, the `dezena` of each ranked entry, holds ten distinct numbers of 1..25, or none when the window is empty |
| Ingestao.ResumoLocal | src/application/use-cases/ProcessLotofacilData.ts:56-63 | the statistics of a draw depend only on the stored draws below its number |
| Ingestao.Lotes | src/application/use-cases/ProcessLotofacilData.ts:29-31 | every batch has between 1 and 100 draws |
| Ingestao.LotesCobrem | src/application/use-cases/ProcessLotofacilData.ts:29-31 | the batches, end to end, are the downloaded list: every draw once, in order |
| Ingestao.Novos | src/application/use-cases/ProcessLotofacilData.ts:34-45 | the new batch holds only draws of the batch whose number is not stored |
| Ingestao.NovosNumeros | src/application/use-cases/ProcessLotofacilData.ts:34-45 | adding the new batch's numbers to the stored ones adds all of the batch's numbers |
| Ingestao.NovosDistintos | src/application/use-cases/ProcessLotofacilData.ts:34-45 | a download without repeated numbers gives a new batch without them |
| Ingestao.LoteRecusado | src/application/use-cases/ProcessLotofacilData.ts:51 | a batch whose save reports an error shows a repeated number in the download |
| Ingestao.LoteChaves | src/application/use-cases/ProcessLotofacilData.ts:30-51 | after a saved batch, the store holds the original numbers plus the downloaded numbers up to the batch's end |
| Ingestao.LoteNovos | src/application/use-cases/ProcessLotofacilData.ts:45-51 | after a saved batch, the draws added so far are downloaded draws stored under their numbers, as many as the new keys |
| Ingestao.CompararComAnterior | src/application/use-cases/ProcessLotofacilData.ts:37-44 | a draw past number 1 gets its two lists against the previous draw, found first among the downloaded draws and then in the repository; a draw numbered 1 is left as it is |
| Ingestao.PrepararLote | src/application/use-cases/ProcessLotofacilData.ts:34-48 | the new batch is the batch's draws not yet stored, in order, each with its comparison; stored draws are untouched |
| Ingestao.EstatisticasPreConcurso | src/application/use-cases/ProcessLotofacilData.ts:57-63 | the two lists are the numbers of the report, top 10, on the 50 draws before |
| Ingestao.GravarEstatisticas | src/application/use-cases/ProcessLotofacilData.ts:62-66 | sets the two statistics fields; the update leaves the store as it was, since it holds the same object |
| Ingestao.RegistrarEstatisticas | src/application/use-cases/ProcessLotofacilData.ts:56-67 | a stored draw past number 50 gets the statistics of its window |
| Ingestao.EstatisticasDoLote | src/application/use-cases/ProcessLotofacilData.ts:55-68 | every new draw of a saved batch past number 50 gets the statistics of its window; comparisons untouched |
| Ingestao.SalvarLote | src/application/use-cases/ProcessLotofacilData.ts:50-69 | the store is the bulk insert of the new batch; when the insert succeeds, its draws past number 50 get their statistics |
| Ingestao.ProcessarLote | src/application/use-cases/ProcessLotofacilData.ts:31-69 | one batch: the new draws, their comparisons, the insert, then the statistics when the insert succeeded |
| Ingestao.ProcessarPasso | src/application/use-cases/ProcessLotofacilData.ts:30-69 | one pass of the batch loop moves to `min(i + 100, n)` and extends the run's progress |
| Ingestao.ProcessarTodos | src/application/use-cases/ProcessLotofacilData.ts:26-70 | after the loop the store holds the old draws plus every downloaded number, `newConcursos` counts the added draws, and each added draw carries its comparison and, for an ascending download, its statistics |
| Ingestao.Execute | src/application/use-cases/ProcessLotofacilData.ts:16-81 | the whole use case: stored draws untouched, `totalProcessed` the download size, `totalNew` the added draws, comparisons and statistics recorded, the report that of the 50 newest stored draws; a download without repeated numbers always succeeds |
| CaixaProvider.SemEspacoInicial | src/infrastructure/adapters/CaixaDataProvider.ts:171 | the suffix left after leading white space starts with no white space |
| CaixaProvider.SemEspacoFinal | src/infrastructure/adapters/CaixaDataProvider.ts:171 | the prefix left before trailing white space ends with no white space |
| CaixaProvider.Trim | src/infrastructure/adapters/CaixaDataProvider.ts:171 | `trim()` returns a slice of the text that neither starts nor ends with white space, everything cut before and after it being white space |
| CaixaProvider.PrefixoDeDigitos | src/infrastructure/adapters/CaixaDataProvider.ts:180 | the run of digits at the start of the text is maximal |
| CaixaProvider.CasarDmy | src/infrastructure/adapters/CaixaDataProvider.ts:180 | a match returns groups with which the text fits the pattern |
| CaixaProvider.CasarDmyCompleto | src/infrastructure/adapters/CaixaDataProvider.ts:180 | every text of the pattern matches, with its own groups |
| CaixaProvider.ValorDecimal | src/infrastructure/adapters/CaixaDataProvider.ts:182-184 | `parseInt` of `k` digits is below `10^k` |
| CaixaProvider.AnoComSeculo | src/infrastructure/adapters/CaixaDataProvider.ts:184-187 | years 0..69 become 2000-2069 and 70..99 become 1970-1999, keeping their last two digits; years from 100 on are unchanged |
| CaixaProvider.DiasNoMes | src/infrastructure/adapters/CaixaDataProvider.ts:189 | a month has 28 to 31 days |
| CaixaProvider.Rolar | src/infrastructure/adapters/CaixaDataProvider.ts:189 | a day outside its month is carried into earlier or later months, giving a real date; a day inside the month is left alone |
| CaixaProvider.NovaData | src/infrastructure/adapters/CaixaDataProvider.ts:189 | `new Date(year, monthIndex, day)` always gives a real date, and for a year outside 0..99 is the date named when that is real |
| CaixaProvider.DataDoCalendario | src/infrastructure/adapters/CaixaDataProvider.ts:189-197 | the read-back check keeps the date exactly when year, month and day name a real calendar day |
| CaixaProvider.DataDiaMesAno | src/infrastructure/adapters/CaixaDataProvider.ts:171-198 | when the native parse fails, a `dd/MM/yy(yy)` text gives its date, with the two-digit year pivoted, exactly when that is a real calendar day and `null` otherwise (so 31/02 is refused) |
| CaixaProvider.DataSemPadrao | src/infrastructure/adapters/CaixaDataProvider.ts:171-200 | a text that is neither a native date nor of the pattern gives `null` |
| CaixaProvider.DezenasDasCelulas | src/infrastructure/adapters/CaixaDataProvider.ts:110-116 | the numbers kept from the cells are at most one per cell, all in 1..25 |
| CaixaProvider.DezenasTodasAproveitadas | src/infrastructure/adapters/CaixaDataProvider.ts:110-120 | all cells survive exactly when each holds a number in 1..25, and then the numbers are the cells' values in column order |
| CaixaProvider.ColetarDezenas | src/infrastructure/adapters/CaixaDataProvider.ts:110-116 | the loop over columns C..Q keeps the cells' numbers in 1..25, in column order |
| CaixaProvider.LerLinha | src/infrastructure/adapters/CaixaDataProvider.ts:93-123 | a read row has at least 18 cells, a positive number and exactly 15 numbers in 1..25 |
| CaixaProvider.LinhaDasCelulas | src/infrastructure/adapters/CaixaDataProvider.ts:93-123 | a row is read exactly when it has at least 18 cells, cell 0 converts to a positive number, cell 1 converts to a date and cells 2..16 give exactly 15 numbers in 1..25; the read row takes its number, date and numbers from those cells, and its takings from cell 17, or 0 when that cell does not convert |
| CaixaProvider.LinhaAceitaUsaTodasAsCelulas | src/infrastructure/adapters/CaixaDataProvider.ts:110-120 | an accepted row took its 15 numbers from cells 2..16, one per cell, in column order |
| CaixaProvider.ParseRowToConcurso | src/infrastructure/adapters/CaixaDataProvider.ts:92-144 | `null` for a row the checks skip; otherwise `create`'s error exactly when the numbers are invalid (a repeat), or a new draw with the row's content, prizes 0 and no comparison |
| CaixaProvider.Resumos | src/infrastructure/adapters/CaixaDataProvider.ts:71-81 | reading a list of draws reads each one, in order |
| CaixaProvider.JuntarConcatena | src/infrastructure/adapters/CaixaDataProvider.ts:71-81 | collecting per row distributes over splitting the rows |
| CaixaProvider.AceitasConcatena | src/infrastructure/adapters/CaixaDataProvider.ts:71-81 | rows are read independently: a skipped row, or one that throws, does not affect the others |
| CaixaProvider.AceitasPasso | src/infrastructure/adapters/CaixaDataProvider.ts:71-81 | one more row adds its own contribution at the end |
| CaixaProvider.AceitasValidas | src/infrastructure/adapters/CaixaDataProvider.ts:127-143 | every draw kept from the sheet has a positive number and 15 distinct numbers in 1..25 |
| CaixaProvider.AnexarLinha | src/infrastructure/adapters/CaixaDataProvider.ts:72-80 | one pass of the row loop appends the row's draw, or nothing when the row is skipped or `create` throws |
| CaixaProvider.PlanilhaOrdenada | src/infrastructure/adapters/CaixaDataProvider.ts:83 | the result is ascending by draw number and a permutation of the accepted rows; rows with the same number keep their sheet order |
| CaixaProvider.PlanilhaValida | src/infrastructure/adapters/CaixaDataProvider.ts:71-83 | every draw of the result is valid |
| CaixaProvider.ResumosInsert | src/infrastructure/adapters/CaixaDataProvider.ts:83 | inserting a draw and then reading equals reading and then inserting its row |
| CaixaProvider.ResumosOrdenados | src/infrastructure/adapters/CaixaDataProvider.ts:83 | sorting the draws and then reading equals sorting the rows read |
| CaixaProvider.ProcessarPlanilha | src/infrastructure/adapters/CaixaDataProvider.ts:63-83 | fewer than two rows is an error and nothing else is; otherwise the header is dropped and the result holds new draws whose content is the accepted rows, ascending by number |

## Left out

- Download and workbook access (`src/infrastructure/adapters/CaixaDataProvider.ts:20-61`) are outside the model: the HTTP request, the XLSX parsing and the missing-sheet errors are foreign calls and I/O. The model starts from the rows `sheet_to_json` returns.
- The outer `catch` that rewraps every error message (`CaixaDataProvider.ts:84-89`) is not modelled: messages are strings with no logic.
- `parseNumber`'s `parseFloat` with the comma replacement (`CaixaDataProvider.ts:151`) is the parameter `Leitores.numeroDeTexto`. Numbers are integers: fractional values and `NaN` are not modelled.
- The native `new Date(text)` parse (`CaixaDataProvider.ts:174`) is the parameter `Leitores.dataNativa`, because its behaviour is the JavaScript engine's. V8, for one, reads a text such as `05/03/2023` month first, as 3 May. With such an engine a day-first text date reaches the `dd/MM/yy(yy)` branch (`CaixaProvider.DataDiaMesAno`) only when its day is above 12 or the native parse fails for another reason.
- The Excel serial-date decode (`CaixaDataProvider.ts:161-167`) is the parameter `Leitores.dataSerial`, because its behaviour belongs to the XLSX library.
- Dates are year, month and day. Time of day, time zones and daylight saving are not modelled.
- Prize and takings figures are integers carried unchanged, never computed with.
- `async`/`await` is not modelled: `execute` runs sequentially, which is the order its `await`s impose.
- Logging and console output are not modelled.
- The MongoDB repository is an in-memory map of draw objects. Document copies, `toDomain`'s 19-argument `create` call and the connection handling are not modelled. The repository operations `execute` does not call (`save`, `findAll`, `count`, `deleteAll`, `connect`) are not modelled.
- The REST layer, `QueryConcursos`, the container and `main` are not part of this model. They are routing, wiring and process control.
- The run-length lists are taken as given. No file shown computes them; only how `create` sorts them is modelled.
- A `null` window for `calcular` and a `null` row for `parseRowToConcurso` cannot occur: a Dafny sequence is never `null`. The empty window and the short row are modelled.
- Aliasing through getters is not modelled, because every field here is a value.
  - Some getters build a fresh copy: `maisSorteadas` and `maisAusentes` of the report (`src/domain/value-objects/DezenasEstatisticas.ts:67-73`), and `premiacoes`, `dezenas` and `dezenasNaoSorteadas` of a draw.
  - Others hand out the stored object, which a caller could then change in place: `data` of a draw (`src/domain/entities/Concurso.ts:94-96`), and `maioresSequencias` and `maioresSequenciasAusente` of the report (`DezenasEstatisticas.ts:79-85`).
- Repositorio.InsertMany: the collection schema's validators are not modelled, so every draw whose number is free is stored. The schema (`src/infrastructure/adapters/MongoConcursoRepository.ts:28-43`) puts `min: 0` on `arrecadacaoTotal` and on every prize field, and requires exactly 15 numbers. The spreadsheet passes negative takings through (`src/infrastructure/adapters/CaixaDataProvider.ts:123`), and the real collection would not store such a draw.
- Ingestao.Execute: the stored keys, `totalNew` and the added draws are described as if every downloaded draw passes the schema validators. A draw with negative takings is counted in `totalNew` by the source but not stored, and the model does not capture that.
- Ingestao.ProcessarTodos: the same assumption about the schema validators.
- Ingestao.Execute: the statistics stored on each new draw are stated only for a download ascending by draw number, which is the order `processLotofacilData` returns. For another order the pre-draw window may see draws saved in later batches, and the contract does not describe the result.
- Ingestao.Execute: when a batch save reports an error, the contract states only the frame (stored draws untouched, stored and non-qualifying draws not reassigned) and that the download repeated a number. Because the source throws at that point, the model does not describe what the earlier batches did.
- Ingestao.ProcessarTodos: weaker in the same two ways as `Execute`.
- CaixaProvider.ValorDecimal: only the bound of `parseInt` is stated, not its decimal value.
- CaixaProvider.NovaData: exactness is stated only for years outside 0..99, the only years the pivot passes on.
- CaixaProvider.DataDoCalendario: the if-and-only-if is stated only for years outside 0..99, the only years the pivot passes on.
- CaixaProvider.ProcessarPlanilha: the result is stated through the rows' content (number, date, numbers, takings). That prizes are 0 and the comparison fields are unset is stated per row by `ParseRowToConcurso`.

## Findings

| source | as written | input that shows it | evidently intended | confidence | as-written member | corrected member |
|---|---|---|---|---|---|---|
| src/application/services/DezenasEstatisticasService.ts:7-49 | `DezenasEstatisticas.create(maisSorteadas, maisAusentes, concursos.length, qtdToSlice)`: four arguments to a six-parameter `create`. The window size lands in `maioresSequencias`, so `[...maioresSequencias]` spreads a number and, with native spread (ES2015+ output), throws a `TypeError`. Compiled to ES5 without `downlevelIteration`, the spread helper would give `[]` instead, and `totalConcursosAnalisados` would be `undefined`. | any window, the empty one included, e.g. `calcular([])` | `create(maisSorteadas, maisAusentes, [], [], concursos.length, qtdToSlice)`: empty run-length lists, total the window size | high (not executed) | EstatisticasService.CalcularComoEscritoSempreLanca | EstatisticasService.ChamadaComSeisArgumentos |
