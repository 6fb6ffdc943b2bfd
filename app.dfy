/**
 * The game screen of the front end (`App`): the dark-mode preference and
 * its persistence, and the game state that `carregarPalavra` and
 * `checkAnswer` replace through `setGameState(prev => ...)`.
 *
 * React's state updaters are pure functions from the previous state to
 * the next, so each one is a function on the `GameState` value below; the
 * component that holds the state is the class `Aplicacao`, whose methods
 * apply them. An awaited API call is a parameter: what it returned, or the
 * error it threw.
 */
module App {
  import opened Texto

  /** A word as the API serves it (`Word`); `frases` is optional. */
  datatype Word = Word(id: int, termo: string, definicao: string, categoria: string,
                       frases: Option<seq<string>>)

  /** The feedback panel; `definicaoCorreta` is optional. */
  datatype Feedback = Feedback(show: bool, isCorrect: bool, message: string,
                               definicaoCorreta: Option<string>)

  /** The state `setGameState` replaces. */
  datatype GameState = GameState(currentWord: Option<Word>, score: int, totalAttempts: int,
                                 loading: bool, feedback: Feedback)

  /** The body of `verificarResposta` (`VerificacaoRequest`). */
  datatype Requisicao = Requisicao(palavra: string, resposta: string)

  /** The answer of `verificarResposta` (`VerificacaoResposta`). */
  datatype Verificacao = Verificacao(acerto: bool, similaridade: real,
                                     definicaoCorreta: Option<string>, feedback: string)

  /** How an awaited call ends: with a value, or by throwing; a thrown
      `Error` carries its message, anything else carries none. */
  datatype Resultado<T> = Ok(valor: T) | Falha(mensagem: Option<string>)

  const FEEDBACK_OCULTO: Feedback := Feedback(false, false, "", None)

  const ERRO_CARREGAR: string := "Erro ao carregar palavra. Tente novamente."

  const ERRO_VERIFICAR: string := "Erro ao verificar resposta. Tente novamente."

  /** The terms the card shows in place of a word. */
  const TERMO_CARREGANDO: string := "Carregando..."

  const TERMO_ERRO: string := "Erro ao carregar palavra"

  /** `error instanceof Error ? error.message : padrao`. */
  function MensagemDe(mensagem: Option<string>, padrao: string): string
  {
    if mensagem.Some? then mensagem.value else padrao
  }

  /** The state before the first word arrives. */
  const ESTADO_INICIAL: GameState := GameState(None, 0, 0, true, FEEDBACK_OCULTO)

  /** The scoreboard is consistent: no negative count, and never more
      points than attempts. */
  predicate PlacarValido(s: GameState)
  {
    0 <= s.score <= s.totalAttempts
  }

  /** The term the game card shows: the word's, or a placeholder while
      loading or after a failed load. */
  function TermoExibido(s: GameState): string
  {
    if s.currentWord.Some? then s.currentWord.value.termo
    else if s.loading then TERMO_CARREGANDO
    else TERMO_ERRO
  }

  // ---------------------------------------------------------------------
  // Dark mode

  /** The initial mode from the stored `darkMode` entry: dark when nothing
      is stored, otherwise dark exactly when the entry is "true". */
  function DarkModeInicial(salvo: Option<string>): bool
  {
    salvo.None? || salvo.value == "true"
  }

  /** `isDarkMode.toString()`. */
  function ParaTexto(b: bool): string
  {
    if b then "true" else "false"
  }

  /** The stored entry restores the mode it was written from, so a reload
      keeps the user's choice. */
  lemma DarkModePersistido(b: bool)
    ensures DarkModeInicial(Some(ParaTexto(b))) == b
  {
    if !b {
      assert "false"[0] != "true"[0];
    }
  }

  // ---------------------------------------------------------------------
  // The updaters of `carregarPalavra`

  /** `prev => ({ ...prev, loading: true })`, before each request. */
  function Carregando(prev: GameState): (r: GameState)
    ensures r.loading && r.currentWord == prev.currentWord && r.feedback == prev.feedback
    ensures r.score == prev.score && r.totalAttempts == prev.totalAttempts
    ensures prev.currentWord.None? ==> TermoExibido(r) == TERMO_CARREGANDO
  {
    prev.(loading := true)
  }

  /** The outcome of `carregarPalavra`, from the state it started in: a
      served word becomes the current word and hides the feedback; a failure
      clears the word and shows the error, not as a correct answer. The
      score is never touched and loading is over either way. */
  function AposCarregar(prev: GameState, resultado: Resultado<Word>): (r: GameState)
    ensures !r.loading && r.score == prev.score && r.totalAttempts == prev.totalAttempts
    ensures resultado.Ok? ==> r.currentWord == Some(resultado.valor) && r.feedback == FEEDBACK_OCULTO
    ensures resultado.Ok? ==> TermoExibido(r) == resultado.valor.termo
    ensures resultado.Falha? ==> r.currentWord == None && TermoExibido(r) == TERMO_ERRO
    ensures resultado.Falha? ==>
      r.feedback.show && !r.feedback.isCorrect && r.feedback.message == MensagemDe(resultado.mensagem, ERRO_CARREGAR)
  {
    var s := Carregando(prev);
    match resultado
    case Ok(palavra) => s.(currentWord := Some(palavra), loading := false, feedback := FEEDBACK_OCULTO)
    case Falha(m) =>
      s.(loading := false, currentWord := None,
         feedback := Feedback(true, false, MensagemDe(m, ERRO_CARREGAR), None))
  }

  // ---------------------------------------------------------------------
  // The updaters of `checkAnswer`

  /** The outcome of `checkAnswer` once a request was sent: an answer
      counts one attempt, adds a point exactly when it is correct and shows
      the server's feedback; a failure shows the error and counts nothing.
      The current word stays either way. */
  function AposVerificar(prev: GameState, resultado: Resultado<Verificacao>): (r: GameState)
    ensures !r.loading && r.currentWord == prev.currentWord && r.feedback.show
    ensures resultado.Ok? ==> r.totalAttempts == prev.totalAttempts + 1
    ensures resultado.Ok? ==> (r.score == prev.score + 1 <==> resultado.valor.acerto)
    ensures resultado.Ok? ==> (r.score == prev.score <==> !resultado.valor.acerto)
    ensures resultado.Ok? ==>
      r.feedback.isCorrect == resultado.valor.acerto && r.feedback.message == resultado.valor.feedback
      && r.feedback.definicaoCorreta == resultado.valor.definicaoCorreta
    ensures resultado.Falha? ==> r.score == prev.score && r.totalAttempts == prev.totalAttempts
    ensures resultado.Falha? ==>
      !r.feedback.isCorrect && r.feedback.message == MensagemDe(resultado.mensagem, ERRO_VERIFICAR)
  {
    var s := Carregando(prev);
    match resultado
    case Ok(v) =>
      s.(score := if v.acerto then s.score + 1 else s.score,
         totalAttempts := s.totalAttempts + 1,
         feedback := Feedback(true, v.acerto, v.feedback, v.definicaoCorreta),
         loading := false)
    case Falha(m) =>
      s.(loading := false, feedback := Feedback(true, false, MensagemDe(m, ERRO_VERIFICAR), None))
  }

  /** Whether `checkAnswer` schedules the next word (`setTimeout`): after a
      correct answer only. */
  function AgendaProxima(resultado: Resultado<Verificacao>): bool
  {
    resultado.Ok? && resultado.valor.acerto
  }

  // ---------------------------------------------------------------------
  // A session

  /** What can happen to the game: a load finishes, or an answer is
      submitted and its check finishes. */
  datatype Evento =
    | Carga(carga: Resultado<Word>)
    | Resposta(texto: string, verificacao: Resultado<Verificacao>)

  /** One event: `checkAnswer` does nothing while no word is shown. */
  function Passo(s: GameState, e: Evento): GameState
  {
    match e
    case Carga(r) => AposCarregar(s, r)
    case Resposta(_, r) => if s.currentWord.None? then s else AposVerificar(s, r)
  }

  /** The events one after the other. */
  function Sessao(s: GameState, eventos: seq<Evento>): GameState
    decreases |eventos|
  {
    if eventos == [] then s else Sessao(Passo(s, eventos[0]), eventos[1..])
  }

  /** Each event keeps the scoreboard consistent and never lowers it. */
  lemma PassoPlacar(s: GameState, e: Evento)
    requires PlacarValido(s)
    ensures PlacarValido(Passo(s, e))
    ensures s.score <= Passo(s, e).score && s.totalAttempts <= Passo(s, e).totalAttempts
    ensures Passo(s, e).score - s.score <= Passo(s, e).totalAttempts - s.totalAttempts
  {
  }

  /** Over a whole session the scoreboard stays consistent, neither count
      goes down, and every point gained comes with an attempt. */
  lemma {:induction false} SessaoPlacar(s: GameState, eventos: seq<Evento>)
    requires PlacarValido(s)
    ensures PlacarValido(Sessao(s, eventos))
    ensures s.score <= Sessao(s, eventos).score && s.totalAttempts <= Sessao(s, eventos).totalAttempts
    ensures Sessao(s, eventos).score - s.score <= Sessao(s, eventos).totalAttempts - s.totalAttempts
    decreases |eventos|
  {
    if eventos != [] {
      PassoPlacar(s, eventos[0]);
      SessaoPlacar(Passo(s, eventos[0]), eventos[1..]);
    }
  }

  /** Number of answers the session counts as correct. */
  function Acertos(s: GameState, eventos: seq<Evento>): nat
    decreases |eventos|
  {
    if eventos == [] then 0
    else
      var e := eventos[0];
      (if e.Resposta? && s.currentWord.Some? && AgendaProxima(e.verificacao) then 1 else 0)
      + Acertos(Passo(s, e), eventos[1..])
  }

  /** The score is exactly the number of answers checked as correct. */
  lemma {:induction false} SessaoPontua(s: GameState, eventos: seq<Evento>)
    ensures Sessao(s, eventos).score == s.score + Acertos(s, eventos)
    decreases |eventos|
  {
    if eventos != [] {
      SessaoPontua(Passo(s, eventos[0]), eventos[1..]);
    }
  }

  // ---------------------------------------------------------------------
  // The component

  /** The `App` component: its two pieces of state, the stored preference
      (`localStorage`) and whether the page has the `dark` class. */
  class Aplicacao {
    var isDarkMode: bool
    var gameState: GameState
    var darkModeSalvo: Option<string>
    var classeDark: bool

    /** The effect of `isDarkMode` has run: the preference is stored and the
        page class matches it. */
    ghost predicate Valid()
      reads this
    {
      darkModeSalvo == Some(ParaTexto(isDarkMode)) && classeDark == isDarkMode
      && PlacarValido(gameState)
    }

    /** Mounting: the mode comes from the stored entry and the game starts
        loading with an empty scoreboard; the mode effect then runs. The
        first `carregarPalavra` is a separate call. */
    constructor(salvo: Option<string>)
      ensures Valid()
      ensures isDarkMode == DarkModeInicial(salvo)
      ensures gameState == ESTADO_INICIAL
    {
      isDarkMode := DarkModeInicial(salvo);
      gameState := ESTADO_INICIAL;
      new;
      darkModeSalvo := Some(ParaTexto(isDarkMode));
      classeDark := isDarkMode;
    }

    /** `toggleDarkMode`, followed by the mode effect. */
    method ToggleDarkMode()
      modifies this
      requires Valid()
      ensures Valid()
      ensures isDarkMode == !old(isDarkMode) && gameState == old(gameState)
      ensures DarkModeInicial(darkModeSalvo) == isDarkMode
    {
      isDarkMode := !isDarkMode;
      darkModeSalvo := Some(ParaTexto(isDarkMode));
      classeDark := isDarkMode;
      DarkModePersistido(isDarkMode);
    }

    /** `carregarPalavra`, given how `getPalavraAleatoria` ended. */
    method CarregarPalavra(resultado: Resultado<Word>)
      modifies this
      requires Valid()
      ensures Valid()
      ensures gameState == AposCarregar(old(gameState), resultado)
      ensures isDarkMode == old(isDarkMode) && darkModeSalvo == old(darkModeSalvo)
      ensures classeDark == old(classeDark)
    {
      gameState := AposCarregar(gameState, resultado);
    }

    /** `checkAnswer(answer)`, given the server: without a current word
        nothing happens; otherwise the word's term and the answer are sent,
        and the outcome is applied. Returns whether the next word is
        scheduled. */
    method CheckAnswer(answer: string, verificar: Requisicao -> Resultado<Verificacao>)
      returns (agendada: bool)
      modifies this
      requires Valid()
      ensures Valid()
      ensures old(gameState).currentWord.None? ==> gameState == old(gameState) && !agendada
      ensures old(gameState).currentWord.Some? ==>
        var resultado := verificar(Requisicao(old(gameState).currentWord.value.termo, answer));
        gameState == AposVerificar(old(gameState), resultado) && agendada == AgendaProxima(resultado)
      ensures isDarkMode == old(isDarkMode) && darkModeSalvo == old(darkModeSalvo)
      ensures classeDark == old(classeDark)
    {
      if gameState.currentWord.None? {
        return false;
      }
      var requisicao := Requisicao(gameState.currentWord.value.termo, answer);
      var resultado := verificar(requisicao);
      gameState := AposVerificar(gameState, resultado);
      agendada := AgendaProxima(resultado);
    }
  }
}
