# Missão Fraternal registration: a Dafny model

This project models the logic of a small volunteer sign-up application. A public
form collects a registration ("cadastro"). The `/api/cadastro` endpoint validates it
against a declarative schema, stamps it with an id and a timestamp and appends it to
an append-only list. A listing page then shows the list with a category filter, badge
counts and a CSV export.

Modules, one per concern:

- `Wrappers`, `JsonValue`: `Option`/`Result`, and the JSON value a request body decodes to.
- `Text`: decimal rendering of the clock and the age, plus `join`/`split` with a
  one-character separator.
- `CadastroSchema` (`src/app/api/cadastro/route.ts`): the object schema, the validated
  record `Dados` and the stored record `Cadastro`. The form's schema differs only in the
  rule for `motorista`. Both are one engine, `Issues`, selected by a `MotoristaRule`.
- `CadastroStore` (`src/app/api/cadastro/route.ts`): the store as a class.
  - `production` is fixed at construction and stands for `NODE_ENV === 'production'`.
  - `memory` is the module-level `cadastrosEmMemoria`.
  - `file` is the list the data file last received.
  - `ReadCadastros`, `SaveCadastros`, `Post` and `Get` are methods.
  - The outcomes of file reads and writes are the parameters `readOk` and `writeOk`, so
    every success/failure combination is covered.
- `Lista` (`src/app/lista/page.tsx`): `cadastrosFiltrados`, `estatisticas`,
  `getDisponibilidadeText` and the text `exportarCSV` builds.
- `Formulario` (`src/app/page.tsx`): `formSchema` and the `motorista` string-to-boolean
  conversion in `onSubmit`.

Behaviour of the code that the contracts make explicit:

- Validation runs before any read or write. A rejected body, or one that is not JSON,
  leaves both the memory list and the file untouched.
- In development mode a failed read counts as an empty list. A later successful write
  then replaces the file with just the new record.
- In development mode a failed write puts the updated list in memory and still answers
  201. Development-mode reads only look at the file, though, so the next GET does not
  show the record (`Post`'s last-but-two ensures).
- `id` is `Date.now().toString()`. Ids are unique only while the clock strictly
  increases between POSTs: `Post` keeps `IdsUnique(now)` as `IdsUnique(now + 1)`.
- The CSV export covers the whole fetched list, not the rows the current filter shows
  (`lista/page.tsx:62`), even though the export is meant to cover what the user sees. The
  model follows the code (`CsvIgnoraFiltro`).

## Model

| member | source | states |
|---|---|---|
| `Text.NatToString` | src/app/api/cadastro/route.ts:69 | the clock's decimal text is non-empty, all digits, without a leading zero |
| `Text.ParseDecimalInverts` | src/app/api/cadastro/route.ts:69 | reading an id back as a number gives the clock value it was made from |
| `Text.NatToStringInjective` | src/app/api/cadastro/route.ts:67-69 | two different clock values never give the same id |
| `Text.IntToString` | src/app/lista/page.tsx:65 | the age cell is digits without a leading zero that read back as the age, or, for a negative age, a minus sign followed by such digits reading back as its magnitude |
| `Text.Split` | src/app/lista/page.tsx:60-74 | the page never splits the export; this is the reading of the text line by line and cell by cell that the line and cell counts are stated against: one piece more than there are separators, and no piece holds a separator |
| `Text.Join` | src/app/lista/page.tsx:72-74 | the empty list joins to the empty string; any other join starts with its first piece |
| `Text.JoinSeparators` | src/app/lista/page.tsx:72-74 | a join of n ≥ 1 pieces holds at least n − 1 separators, and exactly n − 1 when no piece holds one |
| `Text.JoinSplit` | src/app/lista/page.tsx:72-74 | joining the pieces of a split restores the string |
| `Text.SplitJoin` | src/app/lista/page.tsx:72-74 | splitting a join restores the pieces when no piece holds the separator |
| `Text.JoinAvoids` | src/app/lista/page.tsx:72-74 | a join contains no character other than the separator that its pieces lack |
| `CadastroSchema.FieldOk` | src/app/api/cadastro/route.ts:8-14 | every field except `instrumento` must be present to pass; an absent `instrumento` passes |
| `CadastroSchema.NullRejected` | src/app/api/cadastro/route.ts:8-14 | `null` passes no field's rule, not even the optional `instrumento` |
| `CadastroSchema.Issues` | src/app/api/cadastro/route.ts:7-15 | every violated field is reported, not just the first; a non-object body gets a single root issue and nothing else |
| `CadastroSchema.ParseCadastro` | src/app/api/cadastro/route.ts:7-15 | accepts exactly when name ≥ 3, 1 ≤ age ≤ 120, phone ≥ 10, boolean driver flag, availability in {ambos, sabado, domingo}, instrument absent or a string, congregation ≥ 1; on failure the errors are the full non-empty issue set; on success the record is valid and equals the body on every schema key |
| `CadastroSchema.Extract` | src/app/api/cadastro/route.ts:65 | the record read from a body that passes every rule except perhaps `motorista` satisfies all the record constraints, and each of its fields other than `motorista` is the body's value under that key, `instrumento` absent exactly when the key is |
| `CadastroSchema.Encode` | src/app/page.tsx:61 | the serialised record uses only schema keys, and has the `instrumento` key exactly when an instrument is present |
| `CadastroSchema.ParseEncode` | src/app/api/cadastro/route.ts:7-15 | parsing the serialisation of a valid record gives back that record |
| `CadastroSchema.ParseIgnoresUnknownKeys` | src/app/api/cadastro/route.ts:65-72 | a key outside the schema (for example `id` or `dataCadastro`) never changes the outcome, so the client cannot supply either |
| `CadastroStore.NovoCadastro` | src/app/api/cadastro/route.ts:68-72 | the new record keeps the validated fields unchanged, its id is digits without a leading zero that read back as the clock value (so exactly `Date.now().toString()`), and its timestamp is the supplied time |
| `CadastroStore.AppendKeepsIdsUnique` | src/app/api/cadastro/route.ts:67-69 | appending a record stamped strictly after every earlier stamp keeps ids pairwise distinct, and all stamps stay below the next clock value |
| `CadastroStore.Store.constructor` | src/app/api/cadastro/route.ts:23 | a new process starts with an empty memory list, a fixed mode and the file as found |
| `CadastroStore.Store.Visible` | src/app/api/cadastro/route.ts:26-40 | a read yields one of the two stored lists or nothing, and in production the memory list whatever the read outcome |
| `CadastroStore.Store.ReadCadastros` | src/app/api/cadastro/route.ts:26-40 | production reads memory; development reads the file, and a failed read yields the empty list, never an error |
| `CadastroStore.Store.SaveCadastros` | src/app/api/cadastro/route.ts:43-58 | production replaces memory; development replaces the file, or memory when the write fails; the other place is unchanged |
| `CadastroStore.Store.Post` | src/app/api/cadastro/route.ts:60-117 | non-JSON body: exactly the 500 case; rejected body: exactly the 400 case, with the issue set; valid body: exactly the 201 case; neither changes memory or file. Success: 201 with the validated fields plus server id and timestamp, and the saved list is the list just read plus exactly that record at the end. Keeps id uniqueness under an increasing clock, and keeps every stored record valid |
| `CadastroStore.Store.Get` | src/app/api/cadastro/route.ts:119-133 | returns what a read returns, `totalCadastros` equals the list length, and nothing changes |
| `CadastroStore.GetTwice` | src/app/api/cadastro/route.ts:119-133 | two GETs with no POST between them return identical listings, except when only one development-mode read fails |
| `CadastroStore.PostThenGet` | src/app/api/cadastro/route.ts:60-133 | in production, a GET right after a successful POST returns the earlier records in order followed by the new record |
| `Lista.Mostra` | src/app/lista/page.tsx:116-123 | the if-chain is equivalent to: "motoristas" shows only drivers, a day value shows only that availability, and nothing else restricts |
| `Lista.Filtrados` | src/app/lista/page.tsx:116-123 | the visible rows are no more than the list, each shown by the filter and taken from the list |
| `Lista.Selecionar` | src/app/lista/page.tsx:116-123 | a filter result is no longer than its input, and every element it keeps satisfies the predicate and comes from the input |
| `Lista.CalcularEstatisticas` | src/app/lista/page.tsx:125-131 | total is the number of records; every other count is at most the total |
| `Lista.SelecionarSubsequence` | src/app/lista/page.tsx:116 | a filter result is a subsequence of its input |
| `Lista.SelecionarConcat` | src/app/lista/page.tsx:116 | filtering distributes over concatenation, so relative order is kept |
| `Lista.SelecionarMultiplicidade` | src/app/lista/page.tsx:116 | a record that passes is kept as often as it occurs; one that fails is dropped |
| `Lista.SelecionarDescarta` | src/app/lista/page.tsx:116 | a record that fails the predicate makes the result strictly shorter than the input |
| `Lista.SelecionarTudo` | src/app/lista/page.tsx:117 | a predicate that every record passes returns the whole list |
| `Lista.SelecionarExtensional` | src/app/lista/page.tsx:116-131 | two predicates that agree on the list select the same records |
| `Lista.FiltroSemRestricao` | src/app/lista/page.tsx:116-123 | "todos", and every filter value not recognised, show the whole list |
| `Lista.FiltroMotoristas` | src/app/lista/page.tsx:118 | "motoristas" keeps exactly the drivers, each with its multiplicity |
| `Lista.FiltroDisponibilidade` | src/app/lista/page.tsx:119-121 | "ambos", "sabado" and "domingo" keep exactly the records with that availability |
| `Lista.FiltroPreservaOrdem` | src/app/lista/page.tsx:116-123 | every filter shows a subsequence of the list in list order, and distributes over concatenation |
| `Lista.ContagensDosBotoes` | src/app/lista/page.tsx:235-275 | each button's badge count equals the number of rows its filter shows |
| `Lista.SomaDisponibilidades` | src/app/lista/page.tsx:128-130 | when every availability is in the enum, ambos + sabado + domingo = total |
| `Lista.TextoDisponibilidade` | src/app/lista/page.tsx:90-101 | a string outside the enum is shown as itself |
| `Lista.TextoDisponibilidadeInjetivo` | src/app/lista/page.tsx:90-101 | the three availabilities get three distinct labels, and no label is itself an availability |
| `Lista.CamposCsv` | src/app/lista/page.tsx:63-72 | a record's row has one cell per header column |
| `Lista.LinhaCsv` | src/app/lista/page.tsx:63-72 | a row opens with the quoted name and holds at least seven commas |
| `Lista.ExportarCsv` | src/app/lista/page.tsx:60-74 | the export opens with the header line and, read line by line, has at least one line more than there are records |
| `Lista.LinhasCsv` | src/app/lista/page.tsx:62-73 | one data line per record |
| `Lista.CamposSemCaractere` | src/app/lista/page.tsx:63-72 | a cell contains a comma or line break only if the record's text or formatted date does |
| `Lista.LinhaTemOitoCampos` | src/app/lista/page.tsx:63-72 | a row whose text holds no comma splits into exactly its eight cells: quoted name, bare age, quoted phone, Sim/Não, availability label, quoted or empty instrument, quoted congregation, date |
| `Lista.LinhaDeCabecalho` | src/app/lista/page.tsx:49-61 | the header line is the eight fixed column names, comma-separated |
| `Lista.LinhaSemQuebra` | src/app/lista/page.tsx:63-72 | a record without line breaks gives a one-line row |
| `Lista.CsvLinhas` | src/app/lista/page.tsx:60-74 | with no line breaks in the data, the export has exactly 1 + \|cadastros\| lines: the header first, then each record's row in list order |
| `Lista.CsvIgnoraFiltro` | src/app/lista/page.tsx:62 | the export covers the full list: when the filter hides a record, the CSV has more lines than header plus visible rows |
| `Lista.ExemploAnaSilvaCampos` | src/app/lista/page.tsx:64-71 | the documented example record's eight cells |
| `Lista.JoinOitoCampos` | src/app/lista/page.tsx:72 | eight cells joined with commas |
| `Lista.ExemploAnaSilva` | src/app/lista/page.tsx:64-71 | the example record's row is `"Ana Silva",30,"11999999999",Sim,Sábado,,"Centro",` followed by the date |
| `Formulario.MesmasRegras` | src/app/page.tsx:21-29 | on every body, the form and the server report the same issues apart from `motorista` |
| `Formulario.MotoristaQualquerTexto` | src/app/page.tsx:25 | any string is an acceptable `motorista` for the form |
| `Formulario.ParseFormulario` | src/app/page.tsx:21-29 | accepts exactly when every form rule holds; on failure the errors are the full non-empty issue set; on success the values are valid, `motorista` is the body's string, and once converted and serialised they equal the body on every other schema key |
| `Formulario.ParaEnvio` | src/app/page.tsx:48-51 | `motorista` becomes true exactly when the string is "true"; every other field is unchanged |
| `Formulario.FormularioAceitoServidorAceita` | src/app/page.tsx:48-51 | every value the form accepts, once converted and serialised, is accepted by the server schema and parsed back unchanged |

## Left out

- File system and JSON text. `fs.readFile`/`fs.writeFile`, `path.join` and `JSON.parse`/`JSON.stringify` of the data file are not modelled. The file is the list it last received, and read and write failures are the `readOk`/`writeOk` inputs.
- A data file that parses as JSON but has no `cadastros` array. In the source, `push` or `.length` then throws and the request answers 500. This case is not modelled, so `Get` never fails.
- Numbers in a body are integers. `z.number()` also accepts fractional ages such as 30.5, and the model cannot express that.
- String lengths count characters. zod counts UTF-16 code units, so a name containing characters outside the Basic Multilingual Plane counts differently.
- zod issue objects and their messages are reduced to the set of failing fields. `Root` stands for the issue raised on a body that is not an object.
- Time. `Date.now()`, `new Date().toISOString()` and `toLocaleDateString("pt-BR")` are the inputs `now`, `isoNow` and `formatarData`. The model does not check that the clock is a real millisecond count.
- `process.env.NODE_ENV` is a constructor parameter. The GET body's fixed `message`, `version` and `endpoints` constants are not modelled, and `environment` is reduced to the production flag.
- `Store.Post`: the push onto the array that production shares with `cadastrosEmMemoria` is modelled as reassigning `memory` to the old list plus the record. This is the same state for requests handled one at a time.
- Concurrency. Concurrent development-mode POSTs racing on the file (last writer wins) are not modelled; requests run one at a time.
- `console` logging and the 500 response's internal error are not modelled.
- Client effects are not modelled: `fetch` in `carregarCadastros` and `onSubmit`, the Blob/`URL.createObjectURL` download and its file name, React state, `reset`, `setTimeout` and `alert`.
- react-hook-form's conversion of raw input values into the object that `formSchema` checks is not modelled. The form's input is a JSON value like the server's.
- Presentation: all JSX, and the colour map `getDisponibilidadeColor`.
- CSV quoting. The export does not escape quotes, commas or line breaks inside fields. Line and field counts are therefore stated only for data free of line breaks (`CsvLinhas`) or commas (`LinhaTemOitoCampos`), and no CSV parse round-trip is claimed.
