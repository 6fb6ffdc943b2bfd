# Vocabulary quiz: answer evaluation, example sentences, word lookup and game screen

A verified Dafny model of the core of a Portuguese vocabulary quiz. The game
shows a word, the player types a definition, and the back end decides whether
the answer is close enough to the stored definition. The model covers four
pieces of it:

- **The answer evaluator** (`AvaliadorRespostas`, module `Processamento`). It
  normalises text (lower-case, drop punctuation, drop digits) and takes the
  first five tokens of the definition as keywords. It scores the answer by the
  fraction of keywords it contains, fuses that score with a cosine similarity
  by `max`, and accepts when the result exceeds 0.5. A flag records whether the
  vectoriser was fitted.
- **The example-sentence generator** (`GeradorFrases`, module `Gerador`). It
  has three fixed fallback sentences. Stored sentences can be served from the
  `frases` table. A language-model reply is cleaned into at most three lines
  and padded with fallbacks, and the result is appended to the table.
- **The random-word lookup** (`get_random_word`, module `Queries`). It builds
  the query text and its parameters with an optional category filter. It
  decodes the `GROUP_CONCAT(f.frase, '|||')` column back into a list of
  sentences and maps the fetched row to a `Palavra`.
- **The game screen** (`App`, module `App`). It covers the dark-mode
  preference and its persistence, and the `GameState` transitions of
  `carregarPalavra` and `checkAnswer`.

Module `Texto` states the Python string primitives these rely on, over
`seq<char>`:

- the character classes of `\w`, `\d` and `str.isspace`;
- `str.lower`, `str.strip`, `str.split()` and `str.split(sep)`;
- `sep.join` and `sub in s`.

Foreign code enters as parameters. The cosine similarity is a real in [0, 1]
(or the `ValueError` its transform may raise). The fit of the vectoriser is
an outcome. The language-model reply is either content or a failure. The
database is a function from query text and parameters to a row, no row or an
error. An awaited HTTP call is the value it returned or the error it threw.
Each React state updater `prev => ({...prev, ...})` is a pure function on
`GameState`. The component is a class whose methods apply those functions.

What the code does, as modelled:

- The normaliser neither strips diacritics nor trims, and it deletes
  punctuation rather than replacing it with a space.
- An empty answer is not short-circuited; it fails the threshold.
- Keywords are the raw tokens of the definition, not stems.
- The acceptance threshold is a strict 0.5.
- The generator has no retry or back-off loop, no duplicate check and no
  four-sentence quota.
- The fallback sentences are the three in `gerar_frase_padrao`.

The evaluator object's `AvaliarResposta` is the evaluation as written
(`Avaliar`). Its keywords come from the raw definition, so an answer
identical to the definition can be rejected (see Findings).
`AvaliarRespostaCorrigida` and `AvaliarCorrigido` are the corrected
evaluation, which draws the keywords from the normalised definition.

## Model

| member | source | states |
|---|---|---|
| `Texto.Lower` | backend/game/processamento.py:21 | `str.lower()` on one character yields no capital, leaves non-capitals alone and keeps the word/space/digit class |
| `Texto.LowerStr` | backend/game/processamento.py:21 | `texto.lower()` lower-cases every character in place and keeps the length |
| `Texto.LStrip` | backend/game/gerador_frases.py:135 | the result is a suffix of the input; what was removed is all whitespace; the result does not start with whitespace |
| `Texto.RStrip` | backend/game/gerador_frases.py:135 | the result is a prefix of the input; what was removed is all whitespace; the result does not end with whitespace |
| `Texto.Strip` | backend/game/gerador_frases.py:135 | `str.strip()` is no longer than its input and neither end of it is whitespace |
| `Texto.StripSlice` | backend/game/gerador_frases.py:137 | the strip is a slice of the input between two all-whitespace margins |
| `Texto.StripIdempotent` | backend/game/gerador_frases.py:137 | stripping an already stripped line changes nothing |
| `Texto.StripEmpty` | backend/game/gerador_frases.py:137 | `f.strip()` is empty exactly when `f` is all whitespace (the blank-line filter) |
| `Texto.TokenLen` | backend/game/processamento.py:37 | the leading token is non-whitespace and is followed by whitespace or the end of the text |
| `Texto.SplitWs` | backend/game/processamento.py:37 | every token of `texto.split()` is non-empty and holds no whitespace; which tokens and in what order is pinned by `SplitWsEmpty` and `SplitWsCons` |
| `Texto.SplitWsEmpty` | backend/game/processamento.py:37 | `texto.split()` is empty exactly when the text is all whitespace |
| `Texto.SplitWsTokensOccur` | backend/game/processamento.py:37 | every token of `texto.split()` occurs in the text |
| `Texto.SplitWsCons` | backend/game/processamento.py:37 | a whitespace margin, then a token, then the end or whitespace: `split()` gives that token first and then the tokens of the rest, so every maximal non-whitespace run is a token, in order |
| `Texto.IndexOf` | backend/database/queries.py:58 | the occurrence `split` cuts at lies within the string |
| `Texto.IndexOfFirst` | backend/database/queries.py:58 | `split` cuts at an occurrence of the separator with none before it, and cuts nowhere only when there is none |
| `Texto.Split` | backend/database/queries.py:58 | `s.split(sep)` yields at least one piece |
| `Texto.SplitFirst` | backend/database/queries.py:58 | splitting yields the text before the first separator, then the split of the rest |
| `Texto.SplitPieces` | backend/database/queries.py:58 | no piece of `s.split(sep)` contains `sep` |
| `Texto.SplitWithoutSep` | backend/database/queries.py:58 | a string without the separator splits into itself alone |
| `Texto.JoinSplit` | backend/database/queries.py:58 | `sep.join(s.split(sep)) == s` for every `s` |
| `Texto.FirstAfterSafePiece` | backend/database/queries.py:58 | after a piece that cannot run into the separator, the first occurrence is the one that follows it |
| `Texto.SplitAfterSafePiece` | backend/database/queries.py:58 | splitting `x + sep + rest` yields `x`, then the split of `rest` |
| `Texto.SplitJoin` | backend/database/queries.py:58 | `sep.join(xs).split(sep) == xs` when no piece contains `sep` and no piece but the last can run into the separator after it |
| `Texto.SplitJoinChar` | backend/game/gerador_frases.py:135 | with a one-character separator such as a line break, pieces free of it survive a join and a split |
| `Texto.CountOccSkip` | backend/database/queries.py:58 | a prefix without occurrences does not change the count of separators |
| `Texto.CountOccFirst` | backend/database/queries.py:58 | the separator count is one for the first occurrence plus the count after it |
| `Texto.SplitCount` | backend/database/queries.py:58 | `s.split(sep)` has one piece more than the non-overlapping occurrences of `sep`, scanned left to right |
| `Processamento.RemovePontuacao` | backend/game/processamento.py:22 | the result holds only word characters and whitespace, each taken from the input, and is no longer than the input |
| `Processamento.RemoveDigitos` | backend/game/processamento.py:23 | the result holds no digit, only characters of the input, and is no longer than the input |
| `Processamento.PreprocessarTexto` | backend/game/processamento.py:19-24 | the normalised text is no longer than the input and holds only lower-case, non-digit word characters and whitespace |
| `Processamento.PreprocessarPasso` | backend/game/processamento.py:21-23 | the normaliser works character by character: the first lowered character is kept exactly when it survives both substitutions |
| `Processamento.PreprocessarSubsequencia` | backend/game/processamento.py:21-24 | the normalised text is a subsequence of `texto.lower()`: it only deletes |
| `Processamento.PreprocessarPontoFixo` | backend/game/processamento.py:19-24 | a text already in normal form is left unchanged |
| `Processamento.PreprocessarIdempotente` | backend/game/processamento.py:19-24 | normalising twice equals normalising once |
| `Processamento.ExtrairPalavrasChave` | backend/game/processamento.py:35-38 | the keywords are at most `top_n`, non-empty and whitespace-free; they are exactly the distinct tokens among the first `top_n` of `texto.split()` |
| `Processamento.Acertos` | backend/game/processamento.py:56 | a keyword is counted exactly when it occurs in the normalised answer |
| `Processamento.PontuacaoPalavrasChave` | backend/game/processamento.py:55-57 | the keyword score lies in [0, 1] and is 0.0 without keywords; it is 0.0 exactly when no keyword occurs and 1.0 exactly when all occur |
| `Processamento.SimilaridadeCosseno` | backend/game/processamento.py:46-52 | the cosine path lies in [0, 1] and is 0.0 when the model is untrained |
| `Processamento.Avaliar` | backend/game/processamento.py:40-61 | the final score lies in [0, 1], is at least each path's score and equals one of them; the answer is accepted exactly when the score exceeds 0.5 |
| `Processamento.NaoTreinadoUsaPalavrasChave` | backend/game/processamento.py:46-60 | with an untrained model the final score is the keyword score |
| `Processamento.RespostaVaziaRejeitada` | backend/game/processamento.py:42-61 | untrained, an answer that normalises to nothing (the empty one among them) gives (0.0, False) |
| `Processamento.DefinicaoSemPalavras` | backend/game/processamento.py:55-57 | a definition with no whitespace-separated token gives keyword score 0.0 |
| `Processamento.RespostaIdenticaRejeitada` | backend/game/processamento.py:42-57 | as written: untrained, the answer "A" to the definition "A" gives (0.0, False) |
| `Processamento.AvaliarCorrigido` | backend/game/processamento.py:40-61 | corrected evaluation, with keywords from the normalised definition: the score lies in [0, 1], is at least each path's score and equals one of them; accepted exactly above 0.5 |
| `Processamento.PalavrasChavePresentes` | backend/game/processamento.py:37-57 | every keyword of a text with at least one word occurs in the text, so its own keyword score is 1.0 |
| `Processamento.RespostaVaziaRejeitadaCorrigida` | backend/game/processamento.py:42-61 | corrected and untrained, an answer that normalises to nothing gives (0.0, False) |
| `Processamento.RespostaIdenticaAceita` | backend/game/processamento.py:55-61 | corrected, an answer identical to a definition with at least one word scores 1.0 and is accepted, trained or not |
| `Processamento.AvaliadorRespostas.constructor` | backend/game/processamento.py:17 | a new evaluator is untrained |
| `Processamento.AvaliadorRespostas.TreinarModelo` | backend/game/processamento.py:26-33 | a successful fit sets the flag; a `ValueError` clears it; any other exception escapes and leaves it as it was |
| `Processamento.AvaliadorRespostas.AvaliarResposta` | backend/game/processamento.py:40-61 | the evaluation as written (`Avaliar`) for the current flag, changing nothing. The score lies in [0, 1], is at least the cosine and at least the keyword score, and is accepted exactly above 0.5. Untrained, the score is the keyword score, and an empty answer gives (0.0, False) |
| `Processamento.AvaliadorRespostas.AvaliarRespostaCorrigida` | backend/game/processamento.py:40-61 | the corrected evaluation (`AvaliarCorrigido`, keywords from the normalised definition) for the current flag, changing nothing. The score lies in [0, 1] and is accepted exactly above 0.5. An untrained empty answer gives (0.0, False). An answer identical to a definition with a word gives (1.0, True) |
| `Gerador.Padroes` | backend/game/gerador_frases.py:47-51 | there are three fallback sentences |
| `Gerador.GerarFrasePadrao` | backend/game/gerador_frases.py:45-52 | `gerar_frase_padrao(p, i)` is fallback number `i mod 3`, and it quotes `'p'` |
| `Gerador.PadroesDistintos` | backend/game/gerador_frases.py:47-51 | the three fallbacks differ for every word |
| `Gerador.Linhas` | backend/game/gerador_frases.py:152-156 | one row `(palavra_id, frase)` per sentence, in order |
| `Gerador.FiltroDosPadroes` | backend/game/gerador_frases.py:79-86 | the `NOT LIKE` lookup excludes fallbacks 0 and 1 but keeps fallback 2 |
| `Gerador.FiltrarPadroes` | backend/game/gerador_frases.py:82-83 | the kept stored sentences are exactly those matching neither excluded prefix: every kept one passes and is stored, every passing one is kept, and with no fallback among them all are kept |
| `Gerador.FiltrarUm` | backend/game/gerador_frases.py:82-83 | one stored sentence is kept exactly when it matches neither prefix; with `FiltrarConcat` this fixes the kept sentences and their order |
| `Gerador.FrasesDeConcat` | backend/game/gerador_frases.py:79-88 | a word's stored sentences in two runs of rows are those of each run, in order |
| `Gerador.FrasesDeLinhas` | backend/game/gerador_frases.py:146-158 | the inserted rows hold the inserted sentences for their word and none for any other |
| `Gerador.FrasesDeAcrescimo` | backend/game/gerador_frases.py:146-158 | an insert extends that word's stored sentences by exactly the inserted ones (duplicates included) and no other word's |
| `Gerador.FiltrarConcat` | backend/game/gerador_frases.py:79-88 | the lookup filters a concatenation piecewise |
| `Gerador.ExistentesAposInsercao` | backend/game/gerador_frases.py:79-158 | after an insert, the lookup for that word returns the earlier result followed by the inserted sentences it keeps |
| `Gerador.TabelaFrases.InserirFrases` | backend/game/gerador_frases.py:146-159 | the insert loop appends one row per sentence, in order, and nothing else |
| `Gerador.LimparLinhas` | backend/game/gerador_frases.py:137 | cleaned lines are non-blank and already stripped, no more of them than lines; which lines and their order are pinned by `LimparUma`, `LimparConcat` and `LimparCompleta` |
| `Gerador.LimparUma` | backend/game/gerador_frases.py:137 | one line cleans to its strip, or to nothing when it is blank |
| `Gerador.LimparConcat` | backend/game/gerador_frases.py:137 | cleaning two runs of lines gives the cleaned lines of each, in order |
| `Gerador.LimparCompleta` | backend/game/gerador_frases.py:137 | the strip of every non-blank line is among the cleaned lines |
| `Gerador.LimparMapeadas` | backend/game/gerador_frases.py:137 | cleaning is the comprehension `[g(f) for f in linhas if g(f)]` with `str.strip` as `g` |
| `Gerador.LimparSemQuebra` | backend/game/gerador_frases.py:135-137 | cleaning lines without a line break gives sentences without one |
| `Gerador.LinhasDaResposta` | backend/game/gerador_frases.py:135-137 | every sentence taken from a reply is non-blank, stripped and free of line breaks; which sentences is pinned by `RespostaPorLinhas` |
| `Gerador.RespostaDeUmaLinha` | backend/game/gerador_frases.py:135-137 | a one-line reply with some text gives exactly its stripped text |
| `Gerador.RespostaPorLinhas` | backend/game/gerador_frases.py:135-137 | a reply whose stripped text is lines joined by line breaks gives the cleaned lines of exactly those lines, in order |
| `Gerador.Primeiras3` | backend/game/gerador_frases.py:139 | `frases[:3]` is the prefix of length min(3, n): the first three, or all of them when there are fewer |
| `Gerador.CompletarFrases` | backend/game/gerador_frases.py:142-143 | the padding loop keeps the given sentences and fills positions k..2 with fallback number k..2, up to 3 |
| `Gerador.ListaPadrao` | backend/game/gerador_frases.py:69 | `[gerar_frase_padrao(palavra, i) for i in range(3)]` is the three fallbacks in order |
| `Gerador.FrasesDaResposta` | backend/game/gerador_frases.py:135-143 | the result is the reply's first three clean lines padded with fallbacks, three in all |
| `Gerador.GeradorFrases.constructor` | backend/game/gerador_frases.py:24-43 | the generator records whether a client is available |
| `Gerador.GeradorFrases.GerarFrases` | backend/game/gerador_frases.py:54-169 | always 3 sentences. No client: the fallbacks, table untouched. At least 3 kept stored sentences: the first 3 of them, table untouched. Failed or empty reply: the fallbacks, table untouched. Otherwise: the reply's clean lines padded, and with an id and a working write exactly those 3 rows appended |
| `Gerador.GeradorFrases.GerarNovas` | backend/game/gerador_frases.py:123-169 | the fallbacks when the model gives nothing; otherwise the padded reply, appended to the table when there is an id and the write succeeds |
| `Gerador.GeradorFrases.GerarFraseUnica` | backend/game/gerador_frases.py:171-214 | fallback 0, which quotes the word, without a client or on a failed or empty reply; otherwise the stripped reply; either way a stripped string |
| `Queries.MarcadoresConcat` | backend/database/queries.py:37-40 | the placeholders of an appended query are those of its parts |
| `Queries.MontadaCoerente` | backend/database/queries.py:35-40 | with placeholder-free fixed parts, the assembled query has one placeholder exactly when filtered and holds the filter exactly then |
| `Queries.SemMarcadorFixo` | backend/database/queries.py:21-40 | the fixed query text, the filter prefix and the tail hold no `?` |
| `Queries.MarcadoresConsulta` | backend/database/queries.py:21-40 | the query has exactly one placeholder per bound parameter, and at most one |
| `Queries.FiltroConsulta` | backend/database/queries.py:35-40 | the query holds `WHERE c.nome = ?` exactly when the category is non-empty |
| `Queries.MontarConsulta` | backend/database/queries.py:35-40 | `query +=` and `params.append` build the query text and parameter list of the category |
| `Queries.DecodificarFrases` | backend/database/queries.py:58 | NULL and the empty string decode to no sentence; no decoded sentence contains the separator |
| `Queries.JuntarDecodificado` | backend/database/queries.py:58 | re-joining the decoded pieces of a non-empty column gives the column back; there is one piece more than separators |
| `Queries.FraseSeguraPeca` | backend/database/queries.py:58 | a sentence without the separator and not ending in a bar cannot run into the separator after it |
| `Queries.DecodificarJuncao` | backend/database/queries.py:29-58 | decoding the join of non-empty sentences gives them back in order, provided none contains the separator and none but the last ends in a bar |
| `Queries.BarraFinalQuebraDecodificacao` | backend/database/queries.py:29-58 | the sentences "a\|" and "b" contain no separator, yet they come back as "a" and "\|b" |
| `Queries.ParaPalavra` | backend/database/queries.py:51-59 | the scalar columns are copied unchanged, `frases` is the decoded column, and `variacoes` keeps its default |
| `Queries.GetRandomWord` | backend/database/queries.py:12-66 | a `Palavra` exactly when the query for the category returns a row, and then the row's mapping; None for no row, a database error or any other error |
| `App.DarkModePersistido` | frontend/src/App.tsx:9-33 | the stored preference restores the mode it was written from |
| `App.Carregando` | frontend/src/App.tsx:42 | the loading updater only sets `loading`; with no word the card shows "Carregando..." |
| `App.AposCarregar` | frontend/src/App.tsx:40-69 | after a load the score and attempts are unchanged and loading is over. A served word becomes current and hides the feedback. A failure clears the word and shows a non-correct error message |
| `App.AposVerificar` | frontend/src/App.tsx:74-113 | after a check the word stays, loading is over and feedback shows. An answer adds one attempt and a point exactly when correct, with the server's feedback. A failure counts nothing and shows a non-correct error |
| `App.PassoPlacar` | frontend/src/App.tsx:42-112 | every transition keeps 0 <= score <= totalAttempts, lowers neither, and gains no more points than attempts |
| `App.SessaoPlacar` | frontend/src/App.tsx:14-119 | over any sequence of loads and checks from a valid scoreboard (the initial 0/0 among them) the scoreboard stays valid and monotone |
| `App.SessaoPontua` | frontend/src/App.tsx:82-100 | the score gained over a session is the number of answers checked as correct, the ones that schedule the next word |
| `App.Aplicacao.constructor` | frontend/src/App.tsx:9-33 | the mode is dark when nothing is stored and otherwise the stored "true"; the game starts loading at 0/0; the preference is stored |
| `App.Aplicacao.ToggleDarkMode` | frontend/src/App.tsx:26-37 | toggling negates the mode, leaves the game alone and stores the new mode, which a reload restores |
| `App.Aplicacao.CarregarPalavra` | frontend/src/App.tsx:40-69 | the state becomes `AposCarregar` of the old state, the preference is untouched, and the scoreboard stays valid |
| `App.Aplicacao.CheckAnswer` | frontend/src/App.tsx:71-114 | without a word nothing changes; otherwise the word's term and the answer are sent, the state becomes `AposVerificar` and the next word is scheduled exactly after a correct answer |

## Left out

- The TF-IDF vectoriser, its fit and transform, and `cosine_similarity` are a foreign library with floating-point numerics. The cosine value is an input in [0, 1], and the fit is an outcome (success, `ValueError`, other exception).
- `hasattr(self.vectorizer, "vocabulary_")` is taken to hold exactly when the fit succeeded, which is when the flag is set.
- Floating point in general: scores are exact reals. `acertos / len(...)` and the comparison with 0.5 are exact here.
- Character classes are exact for U+0000..U+00FF only. Above U+00FF only the Unicode spaces are classified, other characters are non-word characters, and `lower()` leaves them unchanged.
- `Processamento.ExtrairPalavrasChave`: returns the keyword set, not the list `list(set(...))` with its arbitrary order. Only membership and size are used by the score.
- `extrair_palavras_chave` with a negative `top_n` is not modelled. The only call uses the default 5.
- The Mistral/OpenAI client, the `.env` key lookup, the connection test in `__init__` and the prompts are network and foreign calls. The client's presence and each reply (content or failure) are inputs.
- The missing-key `ValueError` raised by `GeradorFrases.__init__` is left out; the constructor takes whether a client exists.
- The sqlite connections of the generator are left out. The read and the write are each a flag saying whether they succeeded.
- A failed write is modelled as writing no row. The partial inserts before an error are discarded, since the code commits only after the whole loop.
- `LIKE` is modelled as SQLite's default: ASCII case folding, no wildcard in the prefixes.
- The SQL engine of `get_random_word` is a function from query and parameters to a row, no row or an error. `ORDER BY RANDOM()`, the grouping and the order in which `GROUP_CONCAT` joins sentences belong to that function.
- `print` and `console.error` logging are output only.
- The React scheduler is not modelled. Interleaving of concurrent async calls and stale closures (`gameState.currentWord` read at call time) are left out; each method runs its updaters in order without interruption.
- The 2-second `setTimeout` is modelled only by whether it is scheduled; the reload it triggers is a separate `CarregarPalavra` call.
- Rendering, the `Header`, `GameCard` and `ScoreBoard` components, and styling are left out. Only the placeholder term the card shows is modelled (`TermoExibido`).
- The HTTP client of the front end is left out. A call returns a value or throws; a thrown `Error` carries its message and anything else does not.
- The mount effect that calls `carregarPalavra` once is a separate `CarregarPalavra` call after the constructor.
- `useEffect` on `isDarkMode` is applied at once, inside the constructor and `ToggleDarkMode`.

## Findings

| source | as written | input that shows it | evidently intended | confidence | as-written member | corrected member |
|---|---|---|---|---|---|---|
| backend/game/processamento.py:55-56 | keywords are taken from the raw `definicao_correta` but searched in the normalised answer, so a keyword with a capital, digit or punctuation mark can never match | untrained model, answer "A", definition "A": score 0.0, rejected | an answer identical to the definition is accepted; the keywords are drawn from `definicao_pp` | medium, not executed | `Processamento.RespostaIdenticaRejeitada` | `Processamento.RespostaIdenticaAceita` |
